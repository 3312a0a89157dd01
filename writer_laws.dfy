/** What the writer promises: a bonded section it writes is read back by
    the classifier and the section decoder as the same terms, the
    moleculetype line is read back as the same name and exclusion count,
    the atoms come out once each in ascending order of their ids (after a
    deletion, numbered 1, 2, ... in order), and sections the writer does
    not know never reach the file. */
module WriterLaws {
  import opened Outcomes
  import opened Text
  import opened Itp
  import opened Classifier
  import opened Deletion
  import opened DeletionLaws
  import opened Reader
  import opened Writer

  // ---------------------------------------------------------------- layout

  /** A text whose last character is not whitespace. */
  predicate EndsInWord(s: string) {
    s != [] && !IsSpace(s[|s| - 1])
  }

  lemma HeadTail(ws: seq<string>)
    requires ws != []
    ensures ws == [ws[0]] + ws[1..]
  {
  }

  lemma JoinCons(ws: seq<string>, sep: string)
    requires |ws| > 1
    ensures Join(ws, sep) == ws[0] + sep + Join(ws[1..], sep)
  {
  }

  lemma {:induction false} JoinAppend(a: seq<string>, b: seq<string>, sep: string)
    requires a != [] && b != []
    ensures Join(a + b, sep) == Join(a, sep) + sep + Join(b, sep)
    decreases |a|
  {
    assert (a + b)[0] == a[0];
    if |a| == 1 {
      assert (a + b)[1..] == b;
    } else {
      assert (a + b)[1..] == a[1..] + b;
      JoinAppend(a[1..], b, sep);
    }
  }

  /** A joined list ends like its last item. */
  lemma {:induction false} JoinEndsInWord(ws: seq<string>, sep: string)
    requires ws != [] && EndsInWord(ws[|ws| - 1])
    ensures EndsInWord(Join(ws, sep))
    decreases |ws|
  {
    if |ws| > 1 {
      JoinEndsInWord(ws[1..], sep);
    }
  }

  /** A cell that splits into exactly the word `w` and ends in it. */
  predicate WordCell(c: string, w: string) {
    Split(c) == [w] && EndsInWord(c)
  }

  /** A word padded on the left splits into itself. */
  lemma SplitPadded(w: string, width: nat)
    requires IsToken(w)
    ensures WordCell(PadLeft(w, width), w)
  {
    SplitSpaces(|PadLeft(w, width)| - |w|, w);
    SplitToken(w);
  }

  /** Each cell holds the word at its position. */
  predicate OneWordEach(cells: seq<string>, words: seq<string>) {
    |cells| == |words| && forall i :: 0 <= i < |cells| ==> WordCell(cells[i], words[i])
  }

  /** Words padded to one width are cells of one word each. */
  lemma PaddedWords(ws: seq<string>, width: nat)
    requires forall i :: 0 <= i < |ws| ==> IsToken(ws[i])
    ensures OneWordEach(Padded(ws, width), ws)
  {
    forall i | 0 <= i < |ws| ensures WordCell(Padded(ws, width)[i], ws[i]) {
      SplitPadded(ws[i], width);
    }
  }

  lemma OneWordEachAppend(a: seq<string>, b: seq<string>, x: seq<string>, y: seq<string>)
    requires OneWordEach(a, b) && OneWordEach(x, y)
    ensures OneWordEach(a + x, b + y)
  {
    forall i | 0 <= i < |a + x| ensures WordCell((a + x)[i], (b + y)[i]) {
      if i >= |a| {
        assert (a + x)[i] == x[i - |a|] && (b + y)[i] == y[i - |a|];
      }
    }
  }

  /** A cell of one word in front of a line ending in a word. */
  lemma ConsCell(c: string, w: string, line: string, others: seq<string>)
    requires WordCell(c, w) && Split(line) == others && EndsInWord(line)
    ensures Split(c + " " + line) == [w] + others && EndsInWord(c + " " + line)
  {
    SplitAroundSpace(c, line);
    var all := c + " " + line;
    assert all[|all| - 1] == line[|line| - 1];
  }

  /** Cells that each hold one word, joined by spaces, split into those
      words, and end in the last of them. */
  lemma {:induction false} SplitCells(cells: seq<string>, words: seq<string>)
    requires OneWordEach(cells, words)
    ensures Split(Join(cells, " ")) == words
    ensures cells != [] ==> EndsInWord(Join(cells, " "))
    decreases |cells|
  {
    if |cells| == 1 {
      assert WordCell(cells[0], words[0]);
    } else if |cells| > 1 {
      var rest := cells[1..];
      var others := words[1..];
      assert OneWordEach(rest, others) by {
        forall i | 0 <= i < |rest| ensures WordCell(rest[i], others[i]) {
          assert rest[i] == cells[i + 1];
        }
      }
      SplitCells(rest, others);
      JoinCons(cells, " ");
      assert WordCell(cells[0], words[0]);
      ConsCell(cells[0], words[0], Join(rest, " "), others);
      HeadTail(words);
    }
  }

  /** Stripping a line that ends in a word keeps its words, and the
      stripped line starts with the first of them. */
  lemma StripKeepsWords(s: string)
    requires EndsInWord(s) && Split(s) != []
    ensures Split(Strip(s)) == Split(s)
    ensures Strip(s) != [] && Strip(s)[0] == Split(s)[0][0]
  {
    StripOfTrailingNonSpace(s);
    var t := LStrip(s);
    assert LStrip(t) == t;
    SplitDependsOnLStrip(t, s);
    FirstWordStartsLine(s);
  }

  /** A line the classifier keeps as data: one whose stripped form starts
      with a word that opens neither a comment nor a header. */
  lemma DataLineByFirstWord(s: string)
    requires EndsInWord(s) && Split(s) != []
    requires Split(s)[0][0] != ';' && Split(s)[0][0] != '['
    ensures IsDataLine(s)
  {
    StripKeepsWords(s);
  }

  // ---------------------------------------------------------------- bonded rows

  /** A comment that is its own words separated by single spaces. */
  predicate Normalized(c: string) {
    c == Join(Split(c), " ")
  }

  /** A term that the writer writes and the readers read back unchanged:
      exactly as many atoms as its kind has, each written as a single word
      that reads back as the same reference, the first opening neither a
      comment nor a header; a function code and parameters that are single
      words; two parameters or none for bonds and angles, none for pairs;
      and a comment only where the angle reader collects one, after both
      parameters, in single-spaced words. */
  predicate Readable(k: Kind, t: Term) {
    |t.refs| == Arity(k) &&
    (forall i :: 0 <= i < |t.refs| ==> WellFormedRef(t.refs[i]) && IsToken(RefText(t.refs[i]))) &&
    RefText(t.refs[0])[0] != ';' && RefText(t.refs[0])[0] != '[' &&
    IsToken(t.funct) &&
    (forall i :: 0 <= i < |t.parameters| ==> IsToken(t.parameters[i])) &&
    ((k == Bonds || k == Angles) ==> |t.parameters| == 0 || |t.parameters| == 2) &&
    (k == Pairs ==> t.parameters == []) &&
    (k != Angles ==> t.comment == "") &&
    (k == Angles ==> Normalized(t.comment) && (t.comment != "" ==> |t.parameters| == 2))
  }

  /** The words of the line a readable term is written as. */
  function Words(k: Kind, t: Term): seq<string> {
    RefTexts(t.refs) + [t.funct] + t.parameters + (if k == Angles then Split(t.comment) else [])
  }

  /** The atom and function-code columns hold one word each. */
  lemma FrontWords(refs: seq<Ref>, funct: string, width: nat)
    requires forall i :: 0 <= i < |refs| ==> IsToken(RefText(refs[i]))
    requires IsToken(funct)
    ensures OneWordEach(Padded(RefTexts(refs), 6) + [PadLeft(funct, width)], RefTexts(refs) + [funct])
  {
    PaddedWords(RefTexts(refs), 6);
    SplitPadded(funct, width);
    OneWordEachAppend(Padded(RefTexts(refs), 6), RefTexts(refs), [PadLeft(funct, width)], [funct]);
  }

  /** The parameter columns of a bond or an angle with two parameters
      hold one word each. */
  lemma PairWords(ps: seq<string>)
    requires |ps| == 2 && IsToken(ps[0]) && IsToken(ps[1])
    ensures OneWordEach([PadLeft(ps[0], 12), PadLeft(ps[1], 12)], ps)
  {
    var cells := [PadLeft(ps[0], 12), PadLeft(ps[1], 12)];
    SplitPadded(ps[0], 12);
    SplitPadded(ps[1], 12);
    forall i | 0 <= i < 2 ensures WordCell(cells[i], ps[i]) {
      if i == 0 {
        assert cells[0] == PadLeft(ps[0], 12);
      } else {
        assert cells[1] == PadLeft(ps[1], 12);
      }
    }
  }

  /** Padding on the left changes neither the words nor the last character. */
  lemma PadKeepsWords(s: string, width: nat)
    ensures Split(PadLeft(s, width)) == Split(s)
    ensures EndsInWord(s) ==> EndsInWord(PadLeft(s, width))
  {
    var padded := PadLeft(s, width);
    SplitSpaces(|padded| - |s|, s);
    if s != [] {
      assert padded[|padded| - 1] == s[|s| - 1];
    }
  }

  /** The parameter column of a dihedral splits into its parameters. */
  lemma DihedralWords(ps: seq<string>)
    requires ps != [] && forall i :: 0 <= i < |ps| ==> IsToken(ps[i])
    ensures Split(PadLeft(Join(ps, " "), 7)) == ps && EndsInWord(PadLeft(Join(ps, " "), 7))
  {
    SplitJoin(ps);
    JoinEndsInWord(ps, " ");
    PadKeepsWords(Join(ps, " "), 7);
  }

  /** The parameter columns split into the parameters a reader sees. */
  lemma ParameterWords(k: Kind, ps: seq<string>)
    requires forall i :: 0 <= i < |ps| ==> IsToken(ps[i])
    requires (k == Bonds || k == Angles) ==> |ps| == 0 || |ps| == 2
    requires k == Pairs ==> ps == []
    ensures var p := ParameterColumns(k, ps);
      p.Ok? && Split(Join(p.value, " ")) == ps && (p.value == [] <==> ps == []) &&
      (ps != [] ==> EndsInWord(Join(p.value, " ")))
  {
    if ps == [] {
      assert ParameterColumns(k, ps) == Ok([]);
      assert Split(Join([], " ")) == [];
    } else if k == Dihedrals {
      var cell := PadLeft(Join(ps, " "), 7);
      assert ParameterColumns(k, ps) == Ok([cell]);
      assert Join([cell], " ") == cell;
      DihedralWords(ps);
    } else {
      assert |ps| == 2;
      var cells := [PadLeft(ps[0], 12), PadLeft(ps[1], 12)];
      assert ParameterColumns(k, ps) == Ok(cells);
      PairWords(ps);
      SplitCells(cells, ps);
    }
  }

  /** Columns of one word each followed by parameter columns split into
      the words of both. */
  lemma BodyWords(front: seq<string>, words: seq<string>, params: seq<string>, ps: seq<string>)
    requires front != [] && OneWordEach(front, words)
    requires Split(Join(params, " ")) == ps && (params != [] ==> EndsInWord(Join(params, " ")))
    ensures Split(Join(front + params, " ")) == words + ps && EndsInWord(Join(front + params, " "))
  {
    SplitCells(front, words);
    if params == [] {
      assert front + params == front;
    } else {
      JoinAppend(front, params, " ");
      SplitAroundSpace(Join(front, " "), Join(params, " "));
    }
  }

  /** A normalized comment after a single space adds its words to the line. */
  lemma TailWords(body: string, c: string)
    requires EndsInWord(body) && Normalized(c)
    ensures Split(body + CommentTail(Angles, c)) == Split(body) + Split(c)
    ensures EndsInWord(body + CommentTail(Angles, c))
  {
    if c == "" {
      assert body + CommentTail(Angles, c) == body;
    } else {
      assert body + CommentTail(Angles, c) == body + " " + c;
      SplitAroundSpace(body, c);
      assert Split(c) != [];
      JoinEndsInWord(Split(c), " ");
    }
  }

  /** The line written for a readable term splits into its words and ends in one. */
  lemma TermRowWords(k: Kind, t: Term)
    requires Readable(k, t)
    ensures TermRow(k, t).Ok?
    ensures Split(TermRow(k, t).value) == Words(k, t) && EndsInWord(TermRow(k, t).value)
  {
    var n := Arity(k);
    assert t.refs[..n] == t.refs;
    var front := Padded(RefTexts(t.refs), 6) + [PadLeft(t.funct, FunctWidth(k))];
    var words := RefTexts(t.refs) + [t.funct];
    FrontWords(t.refs, t.funct, FunctWidth(k));
    ParameterWords(k, t.parameters);
    var params := ParameterColumns(k, t.parameters).value;
    BodyWords(front, words, params, t.parameters);
    var body := Join(front + params, " ");
    assert TermRow(k, t).value == body + CommentTail(k, t.comment);
    if k == Angles {
      TailWords(body, t.comment);
    } else {
      assert body + CommentTail(k, t.comment) == body;
      assert Words(k, t) == words + t.parameters;
    }
  }

  /** The decoder reads the words of a readable term as the term. */
  lemma TermOfWords(k: Kind, t: Term)
    requires Readable(k, t)
    ensures |Words(k, t)| >= MinTokens(k) && TermOf(k, Words(k, t)) == Ok(t)
  {
    var w := Words(k, t);
    var n := Arity(k);
    assert w[..n] == RefTexts(t.refs);
    forall i | 0 <= i < n ensures Refs(w[..n])[i] == t.refs[i] {
      RefOfText(t.refs[i]);
    }
    assert Refs(w[..n]) == t.refs;
    assert w[n] == t.funct;
    var m := |t.parameters|;
    assert w[n + 1..n + 1 + m] == t.parameters;
    if k == Angles {
      assert w[n + 1 + m..] == Split(t.comment);
      if t.comment == "" {
        assert Split(t.comment) == [];
      }
    } else {
      assert w[n + 1..] == t.parameters;
    }
  }

  /** Round trip of one bonded line: the line written for a readable term
      is kept by the classifier, and the section decoder reads its stripped
      form as that term. */
  lemma TermRowRoundTrip(k: Kind, t: Term)
    requires Readable(k, t)
    ensures TermRow(k, t).Ok?
    ensures IsDataLine(TermRow(k, t).value)
    ensures RowOf(k, Strip(TermRow(k, t).value)) == Ok([t])
  {
    var row := TermRow(k, t).value;
    TermRowWords(k, t);
    TermOfWords(k, t);
    assert Words(k, t)[0] == RefText(t.refs[0]);
    StripKeepsWords(row);
    DataLineByFirstWord(row);
  }

  /** `line.strip()` on every line. */
  function StripAll(lines: seq<string>): (r: seq<string>)
    ensures |r| == |lines| && forall i :: 0 <= i < |lines| ==> r[i] == Strip(lines[i])
  {
    seq(|lines|, i requires 0 <= i < |lines| => Strip(lines[i]))
  }

  /** Lines the classifier keeps as data. */
  predicate AllData(lines: seq<string>) {
    forall i :: 0 <= i < |lines| ==> IsDataLine(lines[i])
  }

  lemma AllDataSnoc(lines: seq<string>, line: string)
    requires AllData(lines) && IsDataLine(line)
    ensures AllData(lines + [line])
  {
    assert forall i :: 0 <= i < |lines| ==> (lines + [line])[i] == lines[i];
  }

  lemma StripAllSnoc(lines: seq<string>, line: string)
    ensures StripAll(lines + [line]) == StripAll(lines) + [Strip(line)]
  {
  }

  lemma TermsSnoc(terms: seq<Term>)
    requires terms != []
    ensures terms[..|terms| - 1] + [terms[|terms| - 1]] == terms
  {
  }

  /** One more line read as one more term. */
  lemma ParseTermsSnoc(k: Kind, lines: seq<string>, line: string, prior: seq<Term>, t: Term)
    requires ParseTerms(k, lines) == Ok(prior) && RowOf(k, line) == Ok([t])
    ensures ParseTerms(k, lines + [line]) == Ok(prior + [t])
  {
    ParseTermsAppend(k, lines, [line]);
    var rows := Rows(k, [line]);
    assert rows == [Ok([t])];
    assert rows[..0] == [];
    assert Gather(rows) == Ok([] + [t]);
    assert [] + [t] == [t];
  }

  /** Round trip of a bonded section: the lines written for readable terms
      are all kept by the classifier, and the section decoder reads their
      stripped forms as the same terms, in the same order. */
  lemma {:induction false} TermRowsRoundTrip(k: Kind, terms: seq<Term>)
    requires forall i :: 0 <= i < |terms| ==> Readable(k, terms[i])
    ensures TermRows(k, terms).Ok?
    ensures AllData(TermRows(k, terms).value)
    ensures ParseTerms(k, StripAll(TermRows(k, terms).value)) == Ok(terms)
    decreases |terms|
  {
    if terms == [] {
      assert Rows(k, []) == [];
    } else {
      var n := |terms| - 1;
      var prior := terms[..n];
      assert forall i :: 0 <= i < n ==> prior[i] == terms[i];
      TermRowsRoundTrip(k, prior);
      TermRowRoundTrip(k, terms[n]);
      var before := TermRows(k, prior).value;
      var row := TermRow(k, terms[n]).value;
      assert TermRows(k, terms).value == before + [row];
      AllDataSnoc(before, row);
      StripAllSnoc(before, row);
      ParseTermsSnoc(k, StripAll(before), Strip(row), prior, terms[n]);
      TermsSnoc(terms);
    }
  }

  // ---------------------------------------------------------------- errors

  /** The columns of an atom line are formatted left to right: when the
      line cannot be written, the error is that of the first column that
      does not fit. */
  lemma {:induction false} CellsFirstFailure(rec: Record, layout: seq<Column>, fmt: Formats)
    ensures Cells(rec, layout, fmt).Err? ==>
      exists i :: 0 <= i < |layout| && Cell(rec, layout[i], fmt).Err? &&
        Cell(rec, layout[i], fmt).error == Cells(rec, layout, fmt).error &&
        forall j :: 0 <= j < i ==> Fits(rec, layout[j])
    decreases |layout|
  {
    if layout != [] && Cell(rec, layout[0], fmt).Ok? && Cells(rec, layout, fmt).Err? {
      var rest := layout[1..];
      CellsFirstFailure(rec, rest, fmt);
      var i :| 0 <= i < |rest| && Cell(rec, rest[i], fmt).Err? &&
        Cell(rec, rest[i], fmt).error == Cells(rec, rest, fmt).error &&
        forall j :: 0 <= j < i ==> Fits(rec, rest[j]);
      assert rest[i] == layout[i + 1];
      assert Fits(rec, layout[0]);
      forall j | 0 < j < i + 1 ensures Fits(rec, layout[j]) {
        assert layout[j] == rest[j - 1] && Fits(rec, rest[j - 1]);
      }
    }
  }

  /** A bond line of four words, or an angle line of five, is read with a
      single parameter, and a term with a single parameter cannot be
      written: the writer indexes a second one and raises IndexError. */
  lemma SingleParameterNotWritten(k: Kind, line: string)
    requires k == Bonds || k == Angles
    requires !IsComment(line) && |Split(line)| == Arity(k) + 2
    ensures RowOf(k, line).Ok? && |RowOf(k, line).value| == 1
    ensures |RowOf(k, line).value[0].parameters| == 1
    ensures TermRow(k, RowOf(k, line).value[0]) == Err(IndexError)
  {
  }
}

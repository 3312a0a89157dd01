/** What a line of the `[ atoms ]` block holds, and how the reader takes it
    back: the eight columns are the texts `str` (or the fixed-point format)
    gives for the record's fields, followed by ` ; ` and the comment, and
    `parse_atoms` reads the stripped line as an atom with the same id, the
    same integer and plain-string fields, and the same comment. */
module AtomLineLaws {
  import opened Outcomes
  import opened Text
  import opened Itp
  import opened Classifier
  import opened Reader
  import opened Writer
  import opened WriterLaws
  import opened DeletionLaws

  /** The text of an atom column before padding: `str` of the value, or
      its fixed-point rendering. */
  function ColumnText(rec: Record, c: Column, fmt: Formats): (t: string)
    requires Fits(rec, c)
    ensures Cell(rec, c, fmt) == Ok(PadLeft(t, c.width))
  {
    match c
    case Shown(f, _) => Show(rec[f], fmt)
    case Fixed(f, _, places) => fmt.fixed(NumberOf(rec[f]).value, places)
  }

  /** The column texts of an atom line, in order. */
  function ColumnTexts(rec: Record, fmt: Formats): (ts: seq<string>)
    requires Writable(rec)
    ensures |ts| == |AtomLayout|
  {
    seq(|AtomLayout|, i requires 0 <= i < |AtomLayout| => ColumnText(rec, AtomLayout[i], fmt))
  }

  /** A word that `split` keeps whole and that holds no `;`. */
  predicate Plain(w: string) {
    IsToken(w) && ';' !in w
  }

  /** A text with no whitespace at either end, as `strip` leaves it. */
  predicate Stripped(c: string) {
    c != [] && !IsSpace(c[0]) && !IsSpace(c[|c| - 1])
  }

  /** An atom whose line the reader takes back: every column shows one
      word free of `;`, `nr` is a non-negative integer, and the comment, if
      any, is a non-empty stripped string. */
  predicate PlainAtom(rec: Record, fmt: Formats) {
    Writable(rec) && "nr" in rec && rec["nr"].IntVal? && rec["nr"].i >= 0 &&
    (forall i :: 0 <= i < |AtomLayout| ==> Plain(ColumnText(rec, AtomLayout[i], fmt))) &&
    ("comment" in rec ==> rec["comment"].StrVal? && Stripped(rec["comment"].s))
  }

  /** A value that the coercion of `parse_atoms` gives back from its `str`:
      an integer, or a string that parses as no number. */
  predicate ReadsBack(v: Value) {
    v.IntVal? || (v.StrVal? && Coerce(v.s) == v)
  }

  /** `str` of such a value is coerced back to the value. */
  lemma ShownReadsBack(v: Value, fmt: Formats)
    requires ReadsBack(v)
    ensures Coerce(Show(v, fmt)) == v
  {
    if v.IntVal? {
      CoerceIntText(v.i);
    }
  }

  /** Each column's field holds the coercion of the column's text. */
  predicate FieldsCoerced(rec: Record, read: Record, fmt: Formats)
    requires Writable(rec)
  {
    forall i :: 0 <= i < |AtomLayout| ==>
      AtomLayout[i].field in read && read[AtomLayout[i].field] == Coerce(ColumnText(rec, AtomLayout[i], fmt))
  }

  /** Integers and plain strings in the `str` columns come back unchanged. */
  predicate ShownKept(rec: Record, read: Record)
    requires Writable(rec)
  {
    forall i :: 0 <= i < |AtomLayout| && AtomLayout[i].Shown? && ReadsBack(rec[AtomLayout[i].field]) ==>
      AtomLayout[i].field in read && read[AtomLayout[i].field] == rec[AtomLayout[i].field]
  }

  /** The record `parse_atoms` builds from the line of `rec` has the eight
      fields, plus `comment` when `rec` has one; each field holds the
      coercion of its column's text, so integers and plain strings come back
      unchanged; and the comment comes back unchanged. */
  predicate AtomReadBack(rec: Record, read: Record, fmt: Formats) {
    Writable(rec) &&
    read.Keys == (set f | f in DefaultAtomFields) + (if "comment" in rec then {"comment"} else {}) &&
    FieldsCoerced(rec, read, fmt) && ShownKept(rec, read) &&
    ("comment" in rec ==> "comment" in read && read["comment"] == rec["comment"])
  }

  /** Texts without `;` joined by a separator without `;` hold no `;`. */
  lemma {:induction false} JoinAvoids(ws: seq<string>, sep: string, c: char)
    requires forall i :: 0 <= i < |ws| ==> c !in ws[i]
    requires c !in sep
    ensures c !in Join(ws, sep)
    decreases |ws|
  {
    if |ws| > 1 {
      assert forall i :: 0 <= i < |ws| - 1 ==> ws[1..][i] == ws[i + 1];
      JoinAvoids(ws[1..], sep, c);
      JoinCons(ws, sep);
    }
  }

  /** The eight columns joined by spaces, before any comment. */
  function ColumnsLine(rec: Record, fmt: Formats): string
    requires Writable(rec)
  {
    Join(Cells(rec, AtomLayout, fmt).value, " ")
  }

  /** The columns split into their texts, end in a word and hold no `;`. */
  lemma ColumnsLineWords(rec: Record, fmt: Formats)
    requires PlainAtom(rec, fmt)
    ensures Split(ColumnsLine(rec, fmt)) == ColumnTexts(rec, fmt)
    ensures EndsInWord(ColumnsLine(rec, fmt)) && ';' !in ColumnsLine(rec, fmt)
  {
    var cells := Cells(rec, AtomLayout, fmt).value;
    var texts := ColumnTexts(rec, fmt);
    forall i | 0 <= i < |cells| ensures WordCell(cells[i], texts[i]) && ';' !in cells[i] {
      var c := AtomLayout[i];
      assert Cell(rec, c, fmt) == Ok(PadLeft(texts[i], c.width));
      assert Plain(texts[i]);
      SplitPadded(texts[i], c.width);
      var pad := PadLeft(texts[i], c.width);
      assert pad == Spaces(|pad| - |texts[i]|) + texts[i];
      assert forall j :: 0 <= j < |pad| ==> pad[j] == ' ' || pad[j] in texts[i];
    }
    assert OneWordEach(cells, texts);
    SplitCells(cells, texts);
    JoinAvoids(cells, " ", ';');
  }

  /** The first `c` after a front without `c` is found past the front. */
  lemma {:induction false} IndexOfAfter(front: string, rest: string, c: char)
    requires c !in front
    ensures IndexOf(front + rest, c) == |front| + IndexOf(rest, c)
    decreases |front|
  {
    if front != [] {
      assert front[0] in front;
      assert (front + rest)[0] == front[0];
      assert (front + rest)[1..] == front[1..] + rest;
      assert c !in front[1..] by {
        forall x | x in front[1..] ensures x in front {
          var j :| 0 <= j < |front| - 1 && front[1..][j] == x;
          assert front[j + 1] == x;
        }
      }
      IndexOfAfter(front[1..], rest, c);
    } else {
      assert front + rest == rest;
    }
  }

  /** In a line whose front holds no `;`, the first `;` is the one of ` ; `. */
  lemma SemicolonAt(front: string, c: string)
    requires ';' !in front
    ensures IndexOf(front + (" ; " + c), ';') == |front| + 1
  {
    var tail := " ; " + c;
    assert tail[0] == ' ' && tail[1..][0] == ';';
    assert IndexOf(tail, ';') == 1;
    IndexOfAfter(front, tail, ';');
  }

  /** What follows the `;` of ` ; ` is a space and the comment. */
  lemma AfterSemicolon(front: string, c: string)
    ensures (front + (" ; " + c))[|front| + 2..] == " " + c
  {
  }

  /** A stripped text after a space strips back to itself. */
  lemma StripAfterSpace(c: string)
    requires Stripped(c)
    ensures Strip(" " + c) == c
  {
    LStripSkipsSpaces(" ", c);
    LStripIsSuffix(c);
    RStripIsPrefix(c);
    assert LStrip(c) == c;
  }

  /** The comment after ` ; ` on a line whose front holds no `;`. */
  lemma CommentAfter(front: string, c: string)
    requires ';' !in front && Stripped(c)
    ensures CommentOf(front + (" ; " + c)) == Some(c)
  {
    SemicolonAt(front, c);
    AfterSemicolon(front, c);
    StripAfterSpace(c);
  }

  /** `;` and a space before a text add the word `;` in front of its words. */
  lemma SemicolonWords(c: string)
    ensures Split(";" + " " + c) == [";"] + Split(c)
  {
    SplitAroundSpace(";", c);
    SplitToken(";");
  }

  /** ` ; ` is a space, then `;` and a space. */
  lemma Regroup(line: string, c: string)
    ensures line + " ; " + c == line + " " + (";" + " " + c)
  {
  }

  /** ` ; ` and a comment after a line add `;` and the comment's words. */
  lemma CommentWords(line: string, c: string)
    requires Stripped(c)
    ensures Split(line + " ; " + c) == Split(line) + [";"] + Split(c)
    ensures EndsInWord(line + " ; " + c)
  {
    Regroup(line, c);
    SemicolonWords(c);
    SplitAroundSpace(line, ";" + " " + c);
    var ws := Split(line);
    var cs := Split(c);
    assert ws + ([";"] + cs) == ws + [";"] + cs;
  }

  /** A line, then ` ; ` and the comment when there is one. */
  function WithComment(line: string, comment: Option<string>): string {
    if comment.Some? then line + " ; " + comment.value else line
  }

  /** The comment an atom's line ends with. */
  function CommentText(rec: Record): Option<string> {
    if "comment" in rec && rec["comment"].StrVal? then Some(rec["comment"].s) else None
  }

  /** The line of a plain atom: its columns, then ` ; ` and the comment if it has one. */
  lemma AtomRowLine(rec: Record, fmt: Formats)
    requires PlainAtom(rec, fmt)
    ensures AtomRow(rec, fmt) == Ok(WithComment(ColumnsLine(rec, fmt), CommentText(rec)))
  {
  }

  /** Words of a line ending in a word, followed by a comment. */
  lemma WithCommentWords(line: string, comment: Option<string>)
    requires EndsInWord(line)
    requires comment.Some? ==> Stripped(comment.value)
    ensures Split(WithComment(line, comment)) ==
      Split(line) + (if comment.Some? then [";"] + Split(comment.value) else [])
    ensures EndsInWord(WithComment(line, comment))
  {
    if comment.Some? {
      CommentWords(line, comment.value);
    }
  }

  /** The line written for a plain atom splits into the column texts, then
      `;` and the comment's words when there is a comment, and ends in a
      word. */
  lemma AtomRowWords(rec: Record, fmt: Formats)
    requires PlainAtom(rec, fmt)
    ensures AtomRow(rec, fmt).Ok?
    ensures Split(AtomRow(rec, fmt).value) ==
      ColumnTexts(rec, fmt) + (if CommentText(rec).Some? then [";"] + Split(CommentText(rec).value) else [])
    ensures EndsInWord(AtomRow(rec, fmt).value)
  {
    AtomRowLine(rec, fmt);
    ColumnsLineWords(rec, fmt);
    WithCommentWords(ColumnsLine(rec, fmt), CommentText(rec));
  }

  lemma CommentGroup(line: string, c: string)
    ensures WithComment(line, Some(c)) == line + (" ; " + c)
  {
  }

  /** What `lstrip` leaves of a line without `;` has no `;` either. */
  lemma FrontAvoids(line: string)
    requires ';' !in line
    ensures ';' !in LStrip(line)
  {
    LStripIsSuffix(line);
  }

  /** A line ending in a word, stripped: only its front whitespace goes,
      and it has no comment when it has no `;`. */
  lemma StripPlainLine(line: string)
    requires EndsInWord(line) && ';' !in line
    ensures Strip(line) == LStrip(line) && CommentOf(Strip(line)) == None
  {
    StripOfTrailingNonSpace(line);
    FrontAvoids(line);
  }

  /** A line with ` ; ` and a comment, stripped: only the front whitespace
      of its columns goes, and the comment is read back. */
  lemma StripCommentLine(line: string, c: string)
    requires Split(line) != [] && ';' !in line && Stripped(c)
    ensures Strip(line + (" ; " + c)) == LStrip(line) + (" ; " + c)
    ensures CommentOf(Strip(line + (" ; " + c))) == Some(c)
  {
    var whole := line + (" ; " + c);
    assert whole[|whole| - 1] == c[|c| - 1];
    StripOfTrailingNonSpace(whole);
    FirstWordStartsLine(line);
    LStripConcat(line, " ; " + c);
    FrontAvoids(line);
    CommentAfter(LStrip(line), c);
  }

  /** Stripping a line with a comment strips only the front of its
      columns, and the comment is read back from the stripped line. */
  lemma StripWithComment(line: string, comment: Option<string>)
    requires EndsInWord(line) && Split(line) != [] && ';' !in line
    requires comment.Some? ==> Stripped(comment.value)
    ensures CommentOf(Strip(WithComment(line, comment))) == comment
  {
    if comment.Some? {
      CommentGroup(line, comment.value);
      StripCommentLine(line, comment.value);
    } else {
      StripPlainLine(line);
    }
  }

  /** `parse_atoms` reads field i of a line with at least eight words as
      the coercion of word i. */
  lemma DefaultFieldRead(data: seq<string>, i: nat)
    requires |DefaultAtomFields| <= |data| && i < |DefaultAtomFields|
    ensures DefaultAtomFields[i] in FieldValues(DefaultAtomFields, data)
    ensures FieldValues(DefaultAtomFields, data)[DefaultAtomFields[i]] == Coerce(data[i])
  {
    DefaultFieldsDistinct();
    FieldValuesLastWins(DefaultAtomFields, data, i);
  }

  /** The default field names are all different. */
  lemma DefaultFieldsDistinct()
    ensures forall i, j :: 0 <= i < j < |DefaultAtomFields| ==> DefaultAtomFields[i] != DefaultAtomFields[j]
  {
  }

  /** The atom layout writes the default fields in order, and none is `comment`. */
  lemma LayoutFields()
    ensures |AtomLayout| == |DefaultAtomFields|
    ensures forall i :: 0 <= i < |AtomLayout| ==> AtomLayout[i].field == DefaultAtomFields[i] && DefaultAtomFields[i] != "comment"
  {
  }

  /** The record `parse_atoms` builds from the words of a plain atom's
      line: the default fields coerced from the words, and the comment. */
  function ReadRecord(words: seq<string>, comment: Option<string>): Record
    requires |DefaultAtomFields| <= |words|
  {
    var values := FieldValues(DefaultAtomFields, words);
    if comment.Some? then values["comment" := StrVal(comment.value)] else values
  }

  /** Words that start with the column texts are read as the coerced texts. */
  lemma ReadFields(rec: Record, fmt: Formats, words: seq<string>, comment: Option<string>)
    requires Writable(rec)
    requires |AtomLayout| <= |words| && words[..|AtomLayout|] == ColumnTexts(rec, fmt)
    ensures FieldsCoerced(rec, ReadRecord(words, comment), fmt)
  {
    LayoutFields();
    var read := ReadRecord(words, comment);
    var texts := ColumnTexts(rec, fmt);
    forall i | 0 <= i < |AtomLayout|
      ensures AtomLayout[i].field in read && read[AtomLayout[i].field] == Coerce(ColumnText(rec, AtomLayout[i], fmt))
    {
      assert words[i] == words[..|AtomLayout|][i] == texts[i];
      DefaultFieldRead(words, i);
    }
  }

  /** Coerced texts of integers and plain strings are those values. */
  lemma KeepShown(rec: Record, read: Record, fmt: Formats)
    requires Writable(rec) && FieldsCoerced(rec, read, fmt)
    ensures ShownKept(rec, read)
  {
    forall i | 0 <= i < |AtomLayout| && AtomLayout[i].Shown? && ReadsBack(rec[AtomLayout[i].field])
      ensures AtomLayout[i].field in read && read[AtomLayout[i].field] == rec[AtomLayout[i].field]
    {
      ShownReadsBack(rec[AtomLayout[i].field], fmt);
    }
  }

  /** Words that start with the column texts of a plain atom are read as
      its fields, and its comment is kept. */
  lemma ReadValues(rec: Record, fmt: Formats, words: seq<string>)
    requires PlainAtom(rec, fmt)
    requires |AtomLayout| <= |words| && words[..|AtomLayout|] == ColumnTexts(rec, fmt)
    ensures AtomReadBack(rec, ReadRecord(words, CommentText(rec)), fmt)
  {
    LayoutFields();
    var read := ReadRecord(words, CommentText(rec));
    ReadFields(rec, fmt, words, CommentText(rec));
    KeepShown(rec, read, fmt);
  }

  /** The line of a plain atom is kept by the classifier; stripped, it
      starts with the id `nr` holds and keeps the words, the column texts
      first. */
  lemma AtomRowKept(rec: Record, fmt: Formats)
    requires PlainAtom(rec, fmt)
    ensures AtomRow(rec, fmt).Ok? && IsDataLine(AtomRow(rec, fmt).value)
    ensures var row := AtomRow(rec, fmt).value;
      Split(Strip(row)) == Split(row) && !IsComment(Strip(row)) &&
      |AtomLayout| <= |Split(row)| && Split(row)[..|AtomLayout|] == ColumnTexts(rec, fmt) &&
      Split(row)[0] == NatToString(rec["nr"].i)
  {
    AtomRowWords(rec, fmt);
    var row := AtomRow(rec, fmt).value;
    var texts := ColumnTexts(rec, fmt);
    var words := Split(row);
    assert words[..|texts|] == texts;
    assert words[0] == texts[0] == NatToString(rec["nr"].i);
    StripKeepsWords(row);
    DataLineByFirstWord(row);
  }

  /** The comment of a plain atom is read back from its stripped line. */
  lemma AtomRowComment(rec: Record, fmt: Formats)
    requires PlainAtom(rec, fmt)
    ensures AtomRow(rec, fmt).Ok? && CommentOf(Strip(AtomRow(rec, fmt).value)) == CommentText(rec)
  {
    AtomRowLine(rec, fmt);
    ColumnsLineWords(rec, fmt);
    StripWithComment(ColumnsLine(rec, fmt), CommentText(rec));
  }

  /** The stripped line of a plain atom is kept by the classifier and read
      as the atom whose id `nr` holds, with the record its words give. */
  lemma AtomRowRead(rec: Record, fmt: Formats)
    requires PlainAtom(rec, fmt)
    ensures AtomRow(rec, fmt).Ok? && IsDataLine(AtomRow(rec, fmt).value)
    ensures var row := AtomRow(rec, fmt).value;
      |AtomLayout| <= |Split(row)| && Split(row)[..|AtomLayout|] == ColumnTexts(rec, fmt) &&
      AtomLine(DefaultAtomFields, Strip(row)) == Some((Id(rec["nr"].i), ReadRecord(Split(row), CommentText(rec))))
  {
    AtomRowKept(rec, fmt);
    AtomRowComment(rec, fmt);
    RefOfText(Id(rec["nr"].i));
  }

  /** Round trip of one atom line: the line written for a plain atom is
      kept by the classifier, and `parse_atoms` reads its stripped form as
      an atom with the id `nr` holds and the fields and comment the record
      had. */
  lemma AtomRowRoundTrip(rec: Record, fmt: Formats)
    requires PlainAtom(rec, fmt)
    ensures AtomRow(rec, fmt).Ok? && IsDataLine(AtomRow(rec, fmt).value)
    ensures var e := AtomLine(DefaultAtomFields, Strip(AtomRow(rec, fmt).value));
      e.Some? && e.value.0 == Id(rec["nr"].i) && AtomReadBack(rec, e.value.1, fmt)
  {
    AtomRowRead(rec, fmt);
    ReadValues(rec, fmt, Split(AtomRow(rec, fmt).value));
  }

  /** `str` of a natural number is one word without `;`. */
  lemma NumeralPlain(n: nat)
    ensures Plain(NatToString(n))
  {
    var s := NatToString(n);
    assert forall k :: 0 <= k < |s| ==> IsDigit(s[k]);
  }

  /** A column of a renumbered atom: `nr` shows the new id, `charge` the
      shifted charge, and every other column what it showed before. */
  lemma MovedColumn(rec: Record, newId: nat, avg: real, fmt: Formats, i: nat)
    requires HasCharge(rec) && PlainAtom(rec, fmt) && i < |AtomLayout|
    requires Plain(fmt.fixed(Charge(rec) + avg, 6))
    ensures Fits(Moved(rec, newId, avg), AtomLayout[i]) && Plain(ColumnText(Moved(rec, newId, avg), AtomLayout[i], fmt))
  {
    var moved := Moved(rec, newId, avg);
    var f := AtomLayout[i].field;
    assert Fits(rec, AtomLayout[i]) && Plain(ColumnText(rec, AtomLayout[i], fmt));
    if f == "nr" {
      NumeralPlain(newId);
    } else if f == "charge" {
      assert NumberOf(moved["charge"]) == Some(Charge(rec) + avg);
    } else {
      assert moved[f] == rec[f];
    }
  }

  /** An atom renumbered by the deletion, its charge shifted, still has a
      line the reader takes back, now under its new id, provided the
      shifted charge is rendered as one word. */
  lemma MovedRowRead(rec: Record, newId: nat, avg: real, fmt: Formats)
    requires HasCharge(rec) && PlainAtom(rec, fmt)
    requires Plain(fmt.fixed(Charge(rec) + avg, 6))
    ensures PlainAtom(Moved(rec, newId, avg), fmt)
    ensures var moved := Moved(rec, newId, avg);
      var e := AtomLine(DefaultAtomFields, Strip(AtomRow(moved, fmt).value));
      e.Some? && e.value.0 == Id(newId) && AtomReadBack(moved, e.value.1, fmt)
  {
    var moved := Moved(rec, newId, avg);
    forall i | 0 <= i < |AtomLayout| ensures Fits(moved, AtomLayout[i]) && Plain(ColumnText(moved, AtomLayout[i], fmt)) {
      MovedColumn(rec, newId, avg, fmt, i);
    }
    assert "comment" in moved ==> moved["comment"] == rec["comment"];
    AtomRowRoundTrip(moved, fmt);
  }
}

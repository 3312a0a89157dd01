/** What the written file looks like block by block: the header line of a
    block is read back as the section's name, the column comments and the
    closing blank line are skipped by the classifier, the atoms come once
    each in ascending order of their ids, after a deletion they are
    numbered 1, 2, ... in order, and sections the writer does not know
    never reach the file. */
module OutputLaws {
  import opened Outcomes
  import opened Text
  import opened Itp
  import opened Classifier
  import opened Deletion
  import opened DeletionLaws
  import opened Reader
  import opened Writer
  import opened WriterLaws

  // ---------------------------------------------------------------- header and comment lines

  /** `[ name ]` is a header line naming `name`. */
  lemma HeaderLineRead(name: string)
    requires IsToken(name)
    ensures IsHeaderLine("[ " + name + " ]")
    ensures HeaderName(Strip("[ " + name + " ]")) == name
  {
    var line := "[ " + name + " ]";
    var last := |line| - 1;
    assert line[last] == ']' && line[0] == '[';
    assert LStrip(line) == line;
    assert RStrip(line) == line;
    assert Strip(line) == line;
    assert IsHeader(line);
    assert LastClose(line, last) == last;
    var inner := line[1..last];
    assert inner == " " + name + " ";
    assert inner[1..] == name + " ";
    assert LStrip(name + " ") == name + " ";
    assert LStrip(inner) == name + " ";
    assert (name + " ")[..|name|] == name;
    assert RStrip(name) == name;
    assert RStrip(name + " ") == name;
  }

  /** A line the classifier neither stores nor treats as a header. */
  predicate Skipped(line: string) {
    !IsHeaderLine(line) && !IsDataLine(line)
  }

  /** A `;` line is a comment to the classifier. */
  lemma CommentLineSkipped(line: string)
    requires line != [] && line[0] == ';'
    ensures Skipped(line)
  {
    assert LStrip(line) == line;
    RStripIsPrefix(line);
  }

  /** The column comments are skipped. */
  lemma ColumnLinesSkipped(k: Kind)
    ensures Skipped(ColumnLine(k))
  {
    CommentLineSkipped(ColumnLine(k));
  }

  /** The blank line closing a block is skipped. */
  lemma BlankSkipped()
    ensures Skipped("")
  {
    assert Strip("") == "";
  }

  // ---------------------------------------------------------------- bonded blocks

  lemma SectionNameIsWord(k: Kind)
    ensures IsToken(SectionName(k))
  {
    var name := SectionName(k);
    forall i | 0 <= i < |name| ensures !IsSpace(name[i]) {
      match k
      case Bonds => assert name == "bonds";
      case Pairs => assert name == "pairs";
      case Angles => assert name == "angles";
      case Dihedrals => assert name == "dihedrals";
    }
  }

  /** A bonded block of readable terms: a header naming the section, a
      skipped column comment, lines that the classifier keeps and the
      decoder reads as the terms in order, and a skipped blank line. */
  lemma TermBlockRoundTrip(k: Kind, terms: seq<Term>)
    requires terms != [] && forall i :: 0 <= i < |terms| ==> Readable(k, terms[i])
    ensures TermBlock(k, Some(terms)).Ok?
    ensures var b := TermBlock(k, Some(terms)).value;
      var rows := b[2..|b| - 1];
      |b| == |terms| + 3 &&
      IsHeaderLine(b[0]) && HeaderName(Strip(b[0])) == SectionName(k) &&
      Skipped(b[1]) && Skipped(b[|b| - 1]) &&
      AllData(rows) && ParseTerms(k, StripAll(rows)) == Ok(terms)
  {
    TermRowsRoundTrip(k, terms);
    var rows := TermRows(k, terms).value;
    var b := ["[ " + SectionName(k) + " ]", ColumnLine(k)] + rows + [""];
    assert TermBlock(k, Some(terms)) == Ok(b);
    assert b[2..|b| - 1] == rows;
    SectionNameIsWord(k);
    HeaderLineRead(SectionName(k));
    ColumnLinesSkipped(k);
    BlankSkipped();
  }

  // ---------------------------------------------------------------- moleculetype

  /** The line holding the name and the exclusion count splits into the two. */
  lemma MoleculeRowWords(name: string, nrexcl: string)
    requires IsToken(name) && IsToken(nrexcl)
    ensures Split(name + "     " + nrexcl) == [name, nrexcl] && EndsInWord(name + "     " + nrexcl)
  {
    var row := name + "     " + nrexcl;
    assert row == name + " " + (Spaces(4) + nrexcl);
    SplitAroundSpace(name, Spaces(4) + nrexcl);
    SplitSpaces(4, nrexcl);
    SplitToken(name);
    SplitToken(nrexcl);
    assert row[|row| - 1] == nrexcl[|nrexcl| - 1];
  }

  /** The moleculetype decoder reads a data line of two words as the name
      and the exclusion count. */
  lemma MoleculeFields(line: string, name: string, nrexcl: string)
    requires Split(line) == [name, nrexcl] && !IsComment(line)
    ensures ParseMoleculetype([line]) == map["name" := name, "nrexcl" := nrexcl]
  {
  }

  /** The block's header line opens the moleculetype section. */
  lemma MoleculeHeaderRead()
    ensures IsHeaderLine("[ moleculetype ]") && HeaderName(Strip("[ moleculetype ]")) == "moleculetype"
  {
    assert IsToken("moleculetype");
    HeaderLineRead("moleculetype");
    assert "[ moleculetype ]" == "[ " + "moleculetype" + " ]";
  }

  /** The data line of the block is kept by the classifier and read back
      as the name and the exclusion count. */
  lemma MoleculeRowRead(name: string, nrexcl: string)
    requires IsToken(name) && IsToken(nrexcl) && name[0] != ';' && name[0] != '['
    ensures var row := name + "     " + nrexcl;
      IsDataLine(row) && ParseMoleculetype([Strip(row)]) == map["name" := name, "nrexcl" := nrexcl]
  {
    var row := name + "     " + nrexcl;
    MoleculeRowWords(name, nrexcl);
    StripKeepsWords(row);
    DataLineByFirstWord(row);
    MoleculeFields(Strip(row), name, nrexcl);
  }

  /** The moleculetype block of a name and exclusion count that are single
      words: a header naming the section, a skipped comment, one data line
      that the decoder reads as the same two fields, and a skipped blank line. */
  lemma MoleculeRoundTrip(m: map<string, string>)
    requires "name" in m && "nrexcl" in m && IsToken(m["name"]) && IsToken(m["nrexcl"])
    requires m["name"][0] != ';' && m["name"][0] != '['
    ensures MoleculeBlock(Some(m)).Ok?
    ensures var b := MoleculeBlock(Some(m)).value;
      IsHeaderLine(b[0]) && HeaderName(Strip(b[0])) == "moleculetype" &&
      Skipped(b[1]) && IsDataLine(b[2]) && Skipped(b[3]) &&
      ParseMoleculetype([Strip(b[2])]) == map["name" := m["name"], "nrexcl" := m["nrexcl"]]
  {
    var name := m["name"];
    var nrexcl := m["nrexcl"];
    var row := name + "     " + nrexcl;
    var comment := ";" + "name            nrexcl";
    var b := ["[ moleculetype ]", comment, row, ""];
    assert MoleculeBlock(Some(m)) == Ok(b);
    MoleculeHeaderRead();
    CommentLineSkipped(comment);
    BlankSkipped();
    MoleculeRowRead(name, nrexcl);
  }

  // ---------------------------------------------------------------- atoms

  /** The atoms along `order` exist and can all be written. */
  predicate WritableAlong(atoms: map<Ref, Record>, order: seq<nat>) {
    forall i :: 0 <= i < |order| ==> Id(order[i]) in atoms && Writable(atoms[Id(order[i])])
  }

  /** `rows` are the lines of the atoms along `order`, one each, in order. */
  predicate RowsAlong(atoms: map<Ref, Record>, order: seq<nat>, rows: seq<string>, fmt: Formats) {
    |rows| == |order| &&
    forall i :: 0 <= i < |order| ==> Id(order[i]) in atoms && AtomRow(atoms[Id(order[i])], fmt) == Ok(rows[i])
  }

  /** One more atom: its line follows the lines before it. */
  lemma RowsAlongSnoc(atoms: map<Ref, Record>, order: seq<nat>, rows: seq<string>, row: string, fmt: Formats)
    requires Listed(atoms, order) && order != []
    requires RowsAlong(atoms, order[..|order| - 1], rows, fmt)
    requires AtomRow(atoms[Id(order[|order| - 1])], fmt) == Ok(row)
    ensures RowsAlong(atoms, order, rows + [row], fmt)
  {
    var n := |order| - 1;
    var all := rows + [row];
    forall i | 0 <= i < |order| ensures Id(order[i]) in atoms && AtomRow(atoms[Id(order[i])], fmt) == Ok(all[i]) {
      if i < n {
        assert order[..n][i] == order[i] && all[i] == rows[i];
      } else {
        assert i == n && all[i] == row;
      }
    }
    assert |all| == |order|;
  }

  /** The atom lines along `order`: written exactly when every atom on the
      way can be written, one line per atom, in the order given. */
  lemma {:induction false} AtomRowsAt(atoms: map<Ref, Record>, order: seq<nat>, fmt: Formats)
    requires Listed(atoms, order)
    ensures AtomRows(atoms, order, fmt).Ok? <==> WritableAlong(atoms, order)
    ensures AtomRows(atoms, order, fmt).Ok? ==> RowsAlong(atoms, order, AtomRows(atoms, order, fmt).value, fmt)
    decreases |order|
  {
    if order != [] {
      var n := |order| - 1;
      ListedPrefix(atoms, order, n);
      assert forall i :: 0 <= i < n ==> order[..n][i] == order[i];
      AtomRowsAt(atoms, order[..n], fmt);
      var prior := AtomRows(atoms, order[..n], fmt);
      var last := AtomRow(atoms[Id(order[n])], fmt);
      if prior.Ok? && last.Ok? {
        RowsAlongSnoc(atoms, order, prior.value, last.value, fmt);
        assert WritableAlong(atoms, order) by {
          forall i | 0 <= i < |order| ensures Writable(atoms[Id(order[i])]) {
            if i < n {
              assert order[..n][i] == order[i];
            }
          }
        }
      } else if prior.Err? {
        var i :| 0 <= i < n && !Writable(atoms[Id(order[..n][i])]);
        assert order[..n][i] == order[i];
      }
    }
  }

  /** The ids of a section keyed by ids, in ascending order: each id once,
      strictly increasing. */
  lemma AscendingIds(table: map<Ref, Record>)
    requires AllIds(table)
    ensures var order := Ascending(IdsOf(table));
      |order| == |table| && Increasing(order) && Listed(table, order) &&
      forall k :: k in table ==> k.n in order
  {
    AscendingSorts(IdsOf(table));
    IdsOfListed(table);
    IdsCount(table);
    forall k | k in table ensures k.n in Ascending(IdsOf(table)) {
      assert k.n in IdsOf(table);
    }
  }

  /** Every atom of the section is on the list exactly when all can be written. */
  lemma WritableAlongAll(table: map<Ref, Record>, order: seq<nat>)
    requires AllIds(table) && Listed(table, order) && forall k :: k in table ==> k.n in order
    ensures WritableAlong(table, order) <==> AllWritable(table)
  {
    if WritableAlong(table, order) {
      forall k | k in table ensures Writable(table[k]) {
        var i :| 0 <= i < |order| && order[i] == k.n;
        assert Id(order[i]) == k;
      }
    }
  }

  /** The atoms block of a section keyed by ids: written exactly when every
      atom can be written; then a header, one line per atom in strictly
      ascending order of the ids, each id once, and a blank line. */
  lemma AtomsBlockOrder(table: map<Ref, Record>, fmt: Formats)
    requires AllIds(table)
    ensures var b := AtomsBlock(Some(table), fmt);
      (b.Ok? <==> AllWritable(table)) &&
      (b.Ok? ==> |b.value| == |table| + 3 && b.value[0] == "[ atoms ]" && b.value[|b.value| - 1] == "" &&
                 RowsAlong(table, Ascending(IdsOf(table)), b.value[2..|b.value| - 1], fmt))
  {
    var order := Ascending(IdsOf(table));
    AscendingIds(table);
    AtomRowsAt(table, order, fmt);
    WritableAlongAll(table, order);
    var rows := AtomRows(table, order, fmt);
    if rows.Ok? {
      var b := ["[ atoms ]", ";   nr  type  resi  res  atom  cgnr     charge      mass       ; qtot   bond_type"] + rows.value + [""];
      assert AtomsBlock(Some(table), fmt) == Ok(b);
      assert b[2..|b| - 1] == rows.value;
    }
  }

  /** Every entry lies between 1 and n. */
  predicate Within(order: seq<nat>, n: nat) {
    forall i :: 0 <= i < |order| ==> 1 <= order[i] <= n
  }

  /** An increasing list of `n` numbers between 1 and `n` is 1, 2, ..., n. */
  lemma Consecutive(order: seq<nat>, n: nat)
    requires |order| == n && Increasing(order) && Within(order, n)
    ensures order == Count(n)
  {
    forall i | 0 <= i < n ensures order[i] == i + 1 {
      Gap(order, 0, i);
      Gap(order, i, n - 1);
    }
  }

  /** Entries of an increasing list grow at least by their distance. */
  lemma {:induction false} Gap(order: seq<nat>, i: nat, j: nat)
    requires Increasing(order) && i <= j < |order|
    ensures order[j] - order[i] >= j - i
    decreases j - i
  {
    if i < j {
      Gap(order, i + 1, j);
    }
  }

  /** Moving a writable record keeps it writable. */
  lemma MovedWritable(rec: Record, newId: nat, avg: real)
    requires HasCharge(rec) && Writable(rec)
    ensures Writable(Moved(rec, newId, avg))
  {
    var moved := Moved(rec, newId, avg);
    forall i | 0 <= i < |AtomLayout| ensures Fits(moved, AtomLayout[i]) {
      assert Fits(rec, AtomLayout[i]);
    }
  }

  /** After a successful deletion every atom of the renumbered section
      still has the fields the writer reads, if every atom had them before. */
  lemma WritableSurvives(t: Topology, names: seq<string>, atomNum: int)
    requires Transform(t, names, atomNum).1.Ok?
    requires t.atoms.Some? && AllWritable(t.atoms.value)
    ensures var after := Transform(t, names, atomNum).0.atoms;
      after.Some? && AllWritable(after.value)
  {
    var r := Transform(t, names, atomNum);
    var kept := Survivors(t.atoms.value, names);
    var avg := Spread(DeletedCharge(t.atoms, names).value, atomNum);
    var mapping := r.1.value;
    var after := r.0.atoms.value;
    RecordsCarried(t, names, atomNum);
    MappingOrder(t, names, atomNum);
    RenumberedKeys(t, names, atomNum);
    forall k | k in after ensures Writable(after[k]) {
      assert k.n in mapping.Values;
      var a :| a in mapping && mapping[a] == k.n;
      assert Id(a) in kept;
      assert HasCharge(kept[Id(a)]);
      MovedWritable(kept[Id(a)], k.n, avg);
    }
  }

  /** The list 1, 2, ..., n. */
  function Count(n: nat): (r: seq<nat>)
    ensures |r| == n && forall i :: 0 <= i < n ==> r[i] == i + 1
  {
    seq(n, i requires 0 <= i < n => i + 1)
  }

  /** There are n ids from 1 to n. */
  lemma {:induction false} PositionsCount(n: nat)
    ensures |Positions(n)| == n
  {
    if n > 0 {
      PositionsCount(n - 1);
      assert Id(n) !in Positions(n - 1);
    }
  }

  /** A section keyed by exactly the ids 1 to n has n atoms. */
  lemma CountedSize(atoms: map<Ref, Record>, n: nat)
    requires forall k :: k in atoms <==> k.Id? && 1 <= k.n <= n
    ensures AllIds(atoms) && |atoms| == n
  {
    PositionsCount(n);
    assert atoms.Keys == Positions(n);
  }

  /** A section keyed by exactly the ids 1 to n lists them in ascending
      order as 1, 2, ..., n. */
  lemma CountedIds(atoms: map<Ref, Record>, n: nat)
    requires forall k :: k in atoms <==> k.Id? && 1 <= k.n <= n
    ensures AllIds(atoms) && |atoms| == n && Ascending(IdsOf(atoms)) == Count(n)
  {
    CountedSize(atoms, n);
    AscendingIds(atoms);
    var order := Ascending(IdsOf(atoms));
    assert Within(order, n) by {
      forall i | 0 <= i < |order| ensures 1 <= order[i] <= n {
        assert Id(order[i]) in atoms;
      }
    }
    Consecutive(order, n);
  }

  /** After a successful deletion the ids of the atoms, in ascending order,
      are 1, 2, ..., n. */
  lemma RenumberedIds(t: Topology, names: seq<string>, atomNum: int)
    requires Transform(t, names, atomNum).1.Ok?
    ensures var after := Transform(t, names, atomNum).0.atoms;
      after.Some? && AllIds(after.value) && Ascending(IdsOf(after.value)) == Count(|after.value|)
  {
    RenumberedKeys(t, names, atomNum);
    CountedIds(Transform(t, names, atomNum).0.atoms.value, |Survivors(t.atoms.value, names)|);
  }

  /** After a successful deletion the atoms block lists the atoms with
      ids 1, 2, ..., n in that order (each holding its id as `nr`, by
      `NrMatchesKey`); when every atom could be written before the
      deletion, the block is written. */
  lemma RenumberedOutput(t: Topology, names: seq<string>, atomNum: int, fmt: Formats)
    requires Transform(t, names, atomNum).1.Ok?
    ensures var after := Transform(t, names, atomNum).0.atoms;
      after.Some? &&
      var b := AtomsBlock(after, fmt);
      (t.atoms.Some? && AllWritable(t.atoms.value) ==> b.Ok?) &&
      (b.Ok? ==> |b.value| == |after.value| + 3 && RowsAlong(after.value, Count(|after.value|), b.value[2..|b.value| - 1], fmt))
  {
    RenumberedIds(t, names, atomNum);
    var after := Transform(t, names, atomNum).0.atoms.value;
    AtomsBlockOrder(after, fmt);
    if t.atoms.Some? && AllWritable(t.atoms.value) {
      WritableSurvives(t, names, atomNum);
    }
  }

  // ---------------------------------------------------------------- the file

  /** Sections other than the six the writer knows never reach the file. */
  lemma WriteIgnoresOthers(t: Topology, others: map<string, seq<string>>, fmt: Formats)
    ensures Write(t.(others := others), fmt) == Write(t, fmt)
  {
  }

  /** A term the writer can write: as many atoms as its kind needs, and not
      exactly one parameter for a bond or an angle. */
  predicate TermWritable(k: Kind, t: Term) {
    |t.refs| >= Arity(k) && !((k == Bonds || k == Angles) && |t.parameters| == 1)
  }

  /** Every term of the list can be written. */
  predicate AllTermsWritable(k: Kind, terms: seq<Term>) {
    forall i :: 0 <= i < |terms| ==> TermWritable(k, terms[i])
  }

  /** Every term of a present section can be written. */
  predicate SectionWritable(k: Kind, section: Option<seq<Term>>) {
    section.Some? ==> AllTermsWritable(k, section.value)
  }

  lemma AllTermsWritableSnoc(k: Kind, terms: seq<Term>)
    requires terms != []
    ensures AllTermsWritable(k, terms) <==>
      AllTermsWritable(k, terms[..|terms| - 1]) && TermWritable(k, terms[|terms| - 1])
  {
    var prior := terms[..|terms| - 1];
    assert forall i :: 0 <= i < |prior| ==> prior[i] == terms[i];
  }

  /** A bonded section is written in full exactly when every term of it can
      be written. */
  lemma {:induction false} TermRowsOk(k: Kind, terms: seq<Term>)
    ensures TermRows(k, terms).Ok? <==> AllTermsWritable(k, terms)
  {
    if terms != [] {
      var n := |terms| - 1;
      var prior := terms[..n];
      TermRowsOk(k, prior);
      assert TermRows(k, terms).Ok? <==> TermRows(k, prior).Ok? && TermRow(k, terms[n]).Ok?;
      assert TermRow(k, terms[n]).Ok? <==> TermWritable(k, terms[n]);
      AllTermsWritableSnoc(k, terms);
    }
  }

  /** A bonded block is written exactly when every term of the section, if
      present, can be written. */
  lemma TermBlockOk(k: Kind, section: Option<seq<Term>>)
    ensures TermBlock(k, section).Ok? <==> SectionWritable(k, section)
  {
    if section.Some? {
      TermRowsOk(k, section.value);
    }
  }

  /** The writer finishes exactly when the moleculetype section, if present,
      has a name and an exclusion count, the atoms section, if present, is
      keyed by integer ids and every atom can be written, and every term of
      every bonded section can be written. */
  lemma WriteSucceedsIff(t: Topology, fmt: Formats)
    ensures Write(t, fmt).Ok? <==>
      (t.moleculetype.Some? ==> "name" in t.moleculetype.value && "nrexcl" in t.moleculetype.value) &&
      (t.atoms.Some? ==> AllIds(t.atoms.value) && AllWritable(t.atoms.value)) &&
      SectionWritable(Bonds, t.bonds) && SectionWritable(Pairs, t.pairs) &&
      SectionWritable(Angles, t.angles) && SectionWritable(Dihedrals, t.dihedrals)
  {
    if t.atoms.Some? && AllIds(t.atoms.value) {
      AtomsBlockOrder(t.atoms.value, fmt);
    }
    TermBlockOk(Bonds, t.bonds);
    TermBlockOk(Pairs, t.pairs);
    TermBlockOk(Angles, t.angles);
    TermBlockOk(Dihedrals, t.dihedrals);
  }
}

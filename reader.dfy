/** The second pass of `parse_itp_file`: each section's list of lines is
    handed to the decoder for its name (`parse_moleculetype`, `parse_atoms`,
    `parse_bonds`, `parse_pairs`, `parse_angles`, `parse_dihedrals`); any
    other section keeps its raw lines. */
module Reader {
  import opened Outcomes
  import opened Text
  import opened Itp
  import opened Classifier

  /** `line.startswith(';')`. */
  predicate IsComment(line: string) {
    line != [] && line[0] == ';'
  }

  // ---------------------------------------------------------------- moleculetype

  /** Pairs `headers[i]` with `data[i]` while both exist; a repeated header
      keeps its last value. */
  function Zip(headers: seq<string>, data: seq<string>): (r: map<string, string>)
    ensures forall h :: h in r <==> exists i :: 0 <= i < |headers| && i < |data| && headers[i] == h
    decreases |headers|
  {
    if headers == [] then map[]
    else
      var n := |headers| - 1;
      var prior := Zip(headers[..n], data);
      assert forall i :: 0 <= i < n ==> headers[..n][i] == headers[i];
      if n < |data| then prior[headers[n] := data[n]] else prior
  }

  /** A header takes the word at the position of its last occurrence. */
  lemma {:induction false} ZipLastWins(headers: seq<string>, data: seq<string>, i: nat)
    requires i < |headers| && i < |data|
    requires forall j :: i < j < |headers| ==> headers[j] != headers[i]
    ensures headers[i] in Zip(headers, data) && Zip(headers, data)[headers[i]] == data[i]
  {
    var n := |headers| - 1;
    if i < n {
      assert headers[..n][i] == headers[i];
      ZipLastWins(headers[..n], data, i);
    }
  }

  /** `parse_moleculetype`: either a `;` header line naming the fields of the
      next line, or a first line whose first two words are the name and the
      number of excluded neighbours. */
  function ParseMoleculetype(lines: seq<string>): (r: map<string, string>)
    ensures lines == [] ==> r == map[]
    ensures lines != [] && !IsComment(lines[0]) ==> r.Keys <= {"name", "nrexcl"}
    ensures lines != [] && IsComment(lines[0]) ==> r.Keys <= set h | h in Split(lines[0][1..])
    ensures lines != [] && !IsComment(lines[0]) && |Split(lines[0])| >= 2 ==>
      r == map["name" := Split(lines[0])[0], "nrexcl" := Split(lines[0])[1]]
    ensures lines != [] && !IsComment(lines[0]) && |Split(lines[0])| < 2 ==> r == map[]
    ensures lines != [] && IsComment(lines[0]) ==>
      r == if |lines| > 1 then Zip(Split(lines[0][1..]), Split(lines[1])) else map[]
  {
    if lines == [] then map[]
    else if IsComment(lines[0]) then
      var headers := Split(lines[0][1..]);
      if |lines| > 1 then Zip(headers, Split(lines[1])) else map[]
    else
      var data := Split(lines[0]);
      if |data| >= 2 then map["name" := data[0], "nrexcl" := data[1]] else map[]
  }

  // ---------------------------------------------------------------- atoms

  /** The field names assumed when the section has no `;` header line. */
  const DefaultAtomFields: seq<string> := ["nr", "type", "resi", "res", "atom", "cgnr", "charge", "mass"]

  /** The field names on a `;` header line: its words up to any second `;`. */
  function HeaderLineFields(line: string): seq<string>
    requires IsComment(line)
  {
    var body := line[1..];
    Split(body[..IndexOf(body, ';')])
  }

  /** Index of the first `;` line, or |lines| when there is none. */
  function FirstComment(lines: seq<string>): (k: nat)
    ensures k <= |lines|
    ensures k < |lines| ==> IsComment(lines[k])
    ensures forall i :: 0 <= i < k ==> !IsComment(lines[i])
  {
    if lines == [] then 0
    else if IsComment(lines[0]) then 0
    else 1 + FirstComment(lines[1..])
  }

  /** The field names on the first `;` line of the section, or none. */
  function DeclaredFields(lines: seq<string>): seq<string> {
    var k := FirstComment(lines);
    if k == |lines| then [] else HeaderLineFields(lines[k])
  }

  /** The field names `parse_atoms` uses: the declared ones, or the defaults
      when the first `;` line declares none or there is no such line. */
  function AtomFields(lines: seq<string>): (fields: seq<string>)
    ensures fields != []
    ensures (forall i :: 0 <= i < |lines| ==> !IsComment(lines[i])) ==> fields == DefaultAtomFields
  {
    var declared := DeclaredFields(lines);
    if declared == [] then DefaultAtomFields else declared
  }

  /** The numeric coercion of one token: a float when it holds a `.`, an int
      otherwise, and the token itself when that conversion fails. */
  function Coerce(tok: string): (v: Value)
    ensures v.StrVal? ==> v.s == tok
    ensures v.IntVal? ==> '.' !in tok
  {
    if '.' in tok then
      match ParseFloat(tok)
      case Some(x) => RealVal(x)
      case None => StrVal(tok)
    else
      match ParseInt(tok)
      case Some(i) => IntVal(i)
      case None => StrVal(tok)
  }

  /** An integer written out by `str` is read back as that integer. */
  lemma CoerceIntText(i: int)
    ensures Coerce(IntToString(i)) == IntVal(i)
  {
    ParseIntToString(i);
    var s := IntToString(i);
    var digits := NatToString(if i < 0 then -i else i);
    assert s == (if i < 0 then "-" else "") + digits;
    assert forall k :: 0 <= k < |s| ==> s[k] == '-' || IsDigit(s[k]);
  }

  /** The coerced fields of one atom line; a repeated field name keeps the
      value of its last position. */
  function FieldValues(fields: seq<string>, data: seq<string>): (r: Record)
    requires |fields| <= |data|
    ensures r.Keys == set f | f in fields
    decreases |fields|
  {
    if fields == [] then map[]
    else
      var n := |fields| - 1;
      var prior := FieldValues(fields[..n], data);
      assert forall i :: 0 <= i < n ==> fields[..n][i] == fields[i];
      assert fields == fields[..n] + [fields[n]];
      prior[fields[n] := Coerce(data[n])]
  }

  /** A field takes the coerced word at the position of its last occurrence. */
  lemma {:induction false} FieldValuesLastWins(fields: seq<string>, data: seq<string>, i: nat)
    requires |fields| <= |data| && i < |fields|
    requires forall j :: i < j < |fields| ==> fields[j] != fields[i]
    ensures FieldValues(fields, data)[fields[i]] == Coerce(data[i])
  {
    var n := |fields| - 1;
    var prior := FieldValues(fields[..n], data);
    var all := prior[fields[n] := Coerce(data[n])];
    assert FieldValues(fields, data) == all;
    if i < n {
      assert fields[..n][i] == fields[i] && fields[n] != fields[i];
      FieldValuesLastWins(fields[..n], data, i);
      assert all[fields[i]] == prior[fields[i]];
    } else {
      assert i == n && all[fields[n]] == Coerce(data[n]);
    }
  }

  /** The text after the first `;` of a line, stripped, if the line has one. */
  function CommentOf(line: string): (c: Option<string>)
    ensures c.Some? <==> ';' in line
    ensures c.Some? ==> var k := IndexOf(line, ';');
      k < |line| && line[k] == ';' && ';' !in line[..k] && c.value == Strip(line[k + 1..])
  {
    var k := IndexOf(line, ';');
    if k == |line| then None else Some(Strip(line[k + 1..]))
  }

  /** One line of `parse_atoms`: the atom's id and record, or nothing when
      the line is a comment or has fewer words than there are fields. */
  function AtomLine(fields: seq<string>, line: string): (r: Option<(Ref, Record)>)
    requires fields != []
    ensures r.Some? <==> !IsComment(line) && |Split(line)| >= |fields|
    ensures r.Some? ==> r.value.0 == RefOf(Split(line)[0])
    ensures r.Some? ==> r.value.1.Keys == (set f | f in fields) + (if ';' in line then {"comment"} else {})
    ensures r.Some? ==> var rec := FieldValues(fields, Split(line));
      r.value.1 == if ';' in line then rec["comment" := StrVal(CommentOf(line).value)] else rec
  {
    var data := Split(line);
    if IsComment(line) || |data| < |fields| then None
    else
      var rec := FieldValues(fields, data);
      Some((RefOf(data[0]), match CommentOf(line)
                            case None => rec
                            case Some(c) => rec["comment" := StrVal(c)]))
  }

  /** What each line of the section contributes, in order. */
  function AtomEntries(fields: seq<string>, lines: seq<string>): (r: seq<Option<(Ref, Record)>>)
    requires fields != []
    ensures |r| == |lines| && forall i :: 0 <= i < |lines| ==> r[i] == AtomLine(fields, lines[i])
  {
    seq(|lines|, i requires 0 <= i < |lines| => AtomLine(fields, lines[i]))
  }

  /** The entry is for the atom with id `k`. */
  predicate Names(entry: Option<(Ref, Record)>, k: Ref) {
    entry.Some? && entry.value.0 == k
  }

  /** The dictionary the entries build, in order. */
  function Table(entries: seq<Option<(Ref, Record)>>): map<Ref, Record> {
    if entries == [] then map[]
    else
      var n := |entries| - 1;
      match entries[n]
      case None => Table(entries[..n])
      case Some(e) => Table(entries[..n])[e.0 := e.1]
  }

  /** The dictionary has a key for exactly the ids some entry names. */
  lemma {:induction false} TableKeys(entries: seq<Option<(Ref, Record)>>, k: Ref)
    ensures k in Table(entries) <==> exists i :: 0 <= i < |entries| && Names(entries[i], k)
  {
    if entries != [] {
      var n := |entries| - 1;
      var prior := entries[..n];
      TableKeys(prior, k);
      if exists i :: 0 <= i < n && Names(prior[i], k) {
        var i :| 0 <= i < n && Names(prior[i], k);
        assert entries[i] == prior[i];
      }
      if exists i :: 0 <= i < |entries| && Names(entries[i], k) {
        var i :| 0 <= i < |entries| && Names(entries[i], k);
        if i < n {
          assert prior[i] == entries[i];
        }
      }
    }
  }

  /** A later entry for an id replaces the earlier one. */
  lemma {:induction false} TableLastWins(entries: seq<Option<(Ref, Record)>>, k: Ref, i: nat)
    requires i < |entries| && Names(entries[i], k)
    requires forall j :: i < j < |entries| ==> !Names(entries[j], k)
    ensures k in Table(entries) && Table(entries)[k] == entries[i].value.1
  {
    var n := |entries| - 1;
    if i < n {
      var prior := entries[..n];
      assert prior[i] == entries[i];
      forall j | i < j < n ensures !Names(prior[j], k) {
        assert prior[j] == entries[j];
      }
      TableLastWins(prior, k, i);
    }
  }

  /** `parse_atoms`. */
  function ParseAtoms(lines: seq<string>): map<Ref, Record> {
    Table(AtomEntries(AtomFields(lines), lines))
  }

  /** `parse_atoms` has an entry for exactly the ids of the lines it reads,
      and an atom's record comes from the last line with its id. */
  lemma ParseAtomsFromLines(lines: seq<string>, k: Ref)
    ensures var fields := AtomFields(lines);
      k in ParseAtoms(lines) <==>
        exists i :: 0 <= i < |lines| && AtomLine(fields, lines[i]).Some? && AtomLine(fields, lines[i]).value.0 == k
    ensures var fields := AtomFields(lines);
      forall i ::
        (0 <= i < |lines| && Names(AtomLine(fields, lines[i]), k) &&
         forall j :: i < j < |lines| ==> !Names(AtomLine(fields, lines[j]), k)) ==>
        k in ParseAtoms(lines) && ParseAtoms(lines)[k] == AtomLine(fields, lines[i]).value.1
  {
    var fields := AtomFields(lines);
    var entries := AtomEntries(fields, lines);
    TableKeys(entries, k);
    forall i | 0 <= i < |lines| && Names(AtomLine(fields, lines[i]), k) &&
        (forall j :: i < j < |lines| ==> !Names(AtomLine(fields, lines[j]), k))
      ensures k in ParseAtoms(lines) && ParseAtoms(lines)[k] == AtomLine(fields, lines[i]).value.1
    {
      TableLastWins(entries, k, i);
    }
  }

  // ---------------------------------------------------------------- bonded terms

  /** The four bonded sections; `parse_bonds`, `parse_pairs`, `parse_angles`
      and `parse_dihedrals` differ only in the choices below. */
  datatype Kind = Bonds | Pairs | Angles | Dihedrals

  /** Number of atom references in a term. */
  function Arity(k: Kind): nat {
    match k
    case Bonds => 2
    case Pairs => 2
    case Angles => 3
    case Dihedrals => 4
  }

  /** Words a line needs before it is read at all. */
  function MinTokens(k: Kind): nat {
    if k == Dihedrals then 5 else 3
  }

  function Min(a: nat, b: nat): nat {
    if a <= b then a else b
  }

  /** Reads the atom references of a line. */
  function Refs(data: seq<string>): (r: seq<Ref>)
    ensures |r| == |data|
    ensures forall i :: 0 <= i < |data| ==> r[i] == RefOf(data[i])
  {
    if data == [] then [] else [RefOf(data[0])] + Refs(data[1..])
  }

  /** The term one line of words describes. The angle decoder reads a
      function code at index 3 while admitting lines of three words, so such
      a line raises IndexError. */
  function TermOf(k: Kind, data: seq<string>): (r: Result<Term>)
    requires |data| >= MinTokens(k)
    ensures r.Err? <==> k == Angles && |data| == 3
    ensures r.Err? ==> r.error == IndexError
    ensures r.Ok? ==>
      |r.value.refs| == Arity(k) && r.value.refs == Refs(data[..Arity(k)]) && r.value.funct == data[Arity(k)]
    ensures r.Ok? && k != Angles ==> r.value.comment == ""
    ensures r.Ok? && (k == Bonds || k == Angles) ==> |r.value.parameters| <= 2
  {
    match k
    case Bonds =>
      Ok(Term(Refs(data[..2]), data[2], data[3..Min(5, |data|)], ""))
    case Pairs =>
      Ok(Term(Refs(data[..2]), data[2], [], ""))
    case Angles =>
      if |data| < 4 then Err(IndexError)
      else Ok(Term(Refs(data[..3]), data[3], data[4..Min(6, |data|)],
                   if |data| > 6 then Join(data[6..], " ") else ""))
    case Dihedrals =>
      Ok(Term(Refs(data[..4]), data[4], data[5..], ""))
  }

  /** The terms one line contributes: none for a comment or a short line. */
  function RowOf(k: Kind, line: string): Result<seq<Term>> {
    var data := Split(line);
    if IsComment(line) || |data| < MinTokens(k) then Ok([])
    else
      var t :- TermOf(k, data);
      Ok([t])
  }

  /** A line on which the angle decoder fails. */
  predicate ShortAngleLine(line: string) {
    !IsComment(line) && |Split(line)| == 3
  }

  /** A row fails exactly when it is an angle line of three words. */
  lemma RowFails(k: Kind, line: string)
    ensures RowOf(k, line).Err? <==> k == Angles && ShortAngleLine(line)
    ensures RowOf(k, line).Err? ==> RowOf(k, line).error == IndexError
  {
  }

  /** What each line of the section contributes, in order. */
  function Rows(k: Kind, lines: seq<string>): (r: seq<Result<seq<Term>>>)
    ensures |r| == |lines| && forall i :: 0 <= i < |lines| ==> r[i] == RowOf(k, lines[i])
  {
    seq(|lines|, i requires 0 <= i < |lines| => RowOf(k, lines[i]))
  }

  /** The rows joined in order; the first failing row stops the decoder. */
  function Gather(rows: seq<Result<seq<Term>>>): Result<seq<Term>> {
    if rows == [] then Ok([])
    else
      var n := |rows| - 1;
      match Gather(rows[..n])
      case Err(e) => Err(e)
      case Ok(prior) =>
        match rows[n]
        case Err(e) => Err(e)
        case Ok(row) => Ok(prior + row)
  }

  /** Gathering fails exactly when some row fails, and with that row's error. */
  lemma {:induction false} GatherFails(rows: seq<Result<seq<Term>>>)
    ensures Gather(rows).Err? <==> exists i :: 0 <= i < |rows| && rows[i].Err?
    ensures Gather(rows).Err? ==> exists i :: 0 <= i < |rows| && rows[i] == Gather(rows)
  {
    if rows != [] {
      var n := |rows| - 1;
      var prior := rows[..n];
      GatherFails(prior);
      if exists i :: 0 <= i < n && prior[i].Err? {
        var i :| 0 <= i < n && prior[i].Err?;
        assert rows[i] == prior[i];
      }
      if Gather(prior).Err? {
        var i :| 0 <= i < n && prior[i] == Gather(prior);
        assert rows[i] == prior[i];
      }
      if exists i :: 0 <= i < |rows| && rows[i].Err? {
        var i :| 0 <= i < |rows| && rows[i].Err?;
        if i < n {
          assert prior[i] == rows[i];
        }
      }
    }
  }

  /** Gathering two blocks of rows is gathering each and joining the terms. */
  lemma {:induction false} GatherAppend(a: seq<Result<seq<Term>>>, b: seq<Result<seq<Term>>>)
    ensures Gather(a + b).Ok? <==> Gather(a).Ok? && Gather(b).Ok?
    ensures Gather(a + b).Ok? ==> Gather(a + b).value == Gather(a).value + Gather(b).value
  {
    if b == [] {
      assert a + b == a;
    } else {
      var n := |b| - 1;
      assert (a + b)[..|a + b| - 1] == a + b[..n];
      assert (a + b)[|a + b| - 1] == b[n];
      GatherAppend(a, b[..n]);
    }
  }

  /** The rows of a section fail exactly on its three-word angle lines. */
  lemma GatherRowsFails(k: Kind, lines: seq<string>)
    ensures Gather(Rows(k, lines)).Err? <==> k == Angles && exists i :: 0 <= i < |lines| && ShortAngleLine(lines[i])
    ensures Gather(Rows(k, lines)).Err? ==> Gather(Rows(k, lines)).error == IndexError
  {
    var rows := Rows(k, lines);
    GatherFails(rows);
    forall i | 0 <= i < |lines| ensures rows[i].Err? <==> k == Angles && ShortAngleLine(lines[i]) {
      RowFails(k, lines[i]);
    }
    if Gather(rows).Err? {
      var i :| 0 <= i < |rows| && rows[i] == Gather(rows);
      RowFails(k, lines[i]);
    }
  }

  /** The decoder of a bonded section, reading the lines in order. */
  function ParseTerms(k: Kind, lines: seq<string>): (r: Result<seq<Term>>)
    ensures r.Err? <==> k == Angles && exists i :: 0 <= i < |lines| && ShortAngleLine(lines[i])
    ensures r.Err? ==> r.error == IndexError
  {
    GatherRowsFails(k, lines);
    Gather(Rows(k, lines))
  }

  /** Decoding is line by line: the terms of two blocks of lines are the
      terms of the first followed by those of the second. */
  lemma ParseTermsAppend(k: Kind, a: seq<string>, b: seq<string>)
    ensures ParseTerms(k, a + b).Ok? <==> ParseTerms(k, a).Ok? && ParseTerms(k, b).Ok?
    ensures ParseTerms(k, a + b).Ok? ==>
      ParseTerms(k, a + b).value == ParseTerms(k, a).value + ParseTerms(k, b).value
  {
    assert Rows(k, a + b) == Rows(k, a) + Rows(k, b);
    GatherAppend(Rows(k, a), Rows(k, b));
  }

  // ---------------------------------------------------------------- dispatch

  /** A decoded section, as `parse_itp_file` stores it under its name. */
  datatype Section =
    | MoleculeSection(fields: map<string, string>)
    | AtomSection(table: map<Ref, Record>)
    | TermSection(terms: seq<Term>)
    | RawSection(lines: seq<string>)

  /** The bonded section a name stands for, if any. */
  function TermKind(name: string): Option<Kind> {
    if name == "bonds" then Some(Bonds)
    else if name == "pairs" then Some(Pairs)
    else if name == "angles" then Some(Angles)
    else if name == "dihedrals" then Some(Dihedrals)
    else None
  }

  /** One turn of the dispatch loop of `parse_itp_file`: the decoder chosen
      by the section's name; unknown sections keep their lines. */
  function DecodeSection(name: string, body: seq<string>): (r: Result<Section>)
    ensures r.Err? ==> name == "angles" && r.error == IndexError
  {
    if name == "moleculetype" then Ok(MoleculeSection(ParseMoleculetype(body)))
    else if name == "atoms" then Ok(AtomSection(ParseAtoms(body)))
    else
      match TermKind(name)
      case Some(k) =>
        var terms :- ParseTerms(k, body);
        Ok(TermSection(terms))
      case None => Ok(RawSection(body))
  }

  /** The decoded sections, or the error the angle decoder raises. */
  function Decode(sections: map<string, seq<string>>): (r: Result<map<string, Section>>)
    ensures r.Ok? ==> r.value.Keys == sections.Keys
  {
    if "angles" in sections && DecodeSection("angles", sections["angles"]).Err? then Err(IndexError)
    else Ok(map n | n in sections :: DecodeSection(n, sections[n]).value)
  }

  /** The section names that have a decoder of their own. */
  const KnownSections: set<string> := {"moleculetype", "atoms", "bonds", "pairs", "angles", "dihedrals"}

  function TermsAt(p: map<string, Section>, name: string): Option<seq<Term>> {
    if name in p && p[name].TermSection? then Some(p[name].terms) else None
  }

  /** The decoded dictionary seen as a topology. */
  function TopologyOf(p: map<string, Section>): Topology {
    Topology(
      if "moleculetype" in p && p["moleculetype"].MoleculeSection? then Some(p["moleculetype"].fields) else None,
      if "atoms" in p && p["atoms"].AtomSection? then Some(p["atoms"].table) else None,
      TermsAt(p, "bonds"), TermsAt(p, "pairs"), TermsAt(p, "angles"), TermsAt(p, "dihedrals"),
      map n | n in p && n !in KnownSections && p[n].RawSection? :: p[n].lines)
  }

  /** `parse_itp_file` on the lines of a file. */
  function ParseItp(lines: seq<string>): Result<Topology> {
    var p :- Decode(Sections(lines));
    Ok(TopologyOf(p))
  }

  /** The dispatch loop of `parse_itp_file` over the classified sections. */
  method DecodeSections(sections: map<string, seq<string>>) returns (r: Result<map<string, Section>>)
    ensures r == Decode(sections)
  {
    var processed: map<string, Section> := map[];
    var pending := sections.Keys;
    while pending != {}
      invariant pending <= sections.Keys
      invariant processed.Keys == sections.Keys - pending
      invariant forall n :: n in processed ==> DecodeSection(n, sections[n]) == Ok(processed[n])
      decreases pending
    {
      var name :| name in pending;
      var decoded := DecodeSection(name, sections[name]);
      if decoded.Err? {
        assert Decode(sections) == Err(IndexError);
        return Err(decoded.error);
      }
      processed := processed[name := decoded.value];
      pending := pending - {name};
    }
    DecodeAll(sections, processed);
    r := Ok(processed);
  }

  /** `parse_itp_file`: classify the lines, then decode each section in turn. */
  method ParseItpFile(lines: seq<string>) returns (r: Result<Topology>)
    ensures r == ParseItp(lines)
  {
    var sections := ParseSections(lines);
    var processed :- DecodeSections(sections);
    r := Ok(TopologyOf(processed));
  }

  /** Decoding every section without error is what `Decode` returns. */
  lemma DecodeAll(sections: map<string, seq<string>>, processed: map<string, Section>)
    requires processed.Keys == sections.Keys
    requires forall n :: n in processed ==> DecodeSection(n, sections[n]) == Ok(processed[n])
    ensures Decode(sections) == Ok(processed)
  {
    if "angles" in sections {
      assert DecodeSection("angles", sections["angles"]).Ok?;
    }
    var d := map n | n in sections :: DecodeSection(n, sections[n]).value;
    assert d == processed;
  }

  // ---------------------------------------------------------------- properties

  /** The lines the classifier stores under `name`. */
  function Bucket(lines: seq<string>, name: string): seq<string> {
    BucketFrom("", lines, name)
  }

  /** Each section decodes on its own. */
  lemma DecodeAt(sections: map<string, seq<string>>, name: string)
    requires Decode(sections).Ok?
    ensures name in Decode(sections).value <==> name in sections
    ensures name in sections ==> DecodeSection(name, sections[name]) == Ok(Decode(sections).value[name])
  {
    if name in sections {
      assert DecodeSection(name, sections[name]).Ok?;
    }
  }

  /** A parsed file holds a decoded section for exactly the names with
      stored lines, each decoded from those lines. */
  lemma DecodedFromBucket(lines: seq<string>, name: string)
    requires ParseItp(lines).Ok?
    ensures var p := Decode(Sections(lines)).value;
      (name in p <==> Bucket(lines, name) != []) &&
      (name in p ==> DecodeSection(name, Bucket(lines, name)) == Ok(p[name]))
  {
    var s := Sections(lines);
    SectionsAt(lines, name);
    assert Decode(s).Ok?;
    DecodeAt(s, name);
  }

  /** Each bonded section is decoded by its own decoder from the lines
      stored under its name, and is absent when no line was stored. */
  lemma TermSectionsDecoded(lines: seq<string>)
    requires ParseItp(lines).Ok?
    ensures var t := ParseItp(lines).value;
      t.bonds == (if Bucket(lines, "bonds") == [] then None else Some(ParseTerms(Bonds, Bucket(lines, "bonds")).value)) &&
      t.pairs == (if Bucket(lines, "pairs") == [] then None else Some(ParseTerms(Pairs, Bucket(lines, "pairs")).value)) &&
      t.dihedrals == (if Bucket(lines, "dihedrals") == [] then None
                      else Some(ParseTerms(Dihedrals, Bucket(lines, "dihedrals")).value))
    ensures var t := ParseItp(lines).value;
      (t.angles.Some? <==> Bucket(lines, "angles") != []) &&
      (t.angles.Some? ==> ParseTerms(Angles, Bucket(lines, "angles")) == Ok(t.angles.value))
  {
    var p := Decode(Sections(lines)).value;
    assert ParseItp(lines).value == TopologyOf(p);
    TermsDecoded(lines, p, "bonds", Bonds);
    TermsDecoded(lines, p, "pairs", Pairs);
    TermsDecoded(lines, p, "angles", Angles);
    TermsDecoded(lines, p, "dihedrals", Dihedrals);
  }

  lemma TermsDecoded(lines: seq<string>, p: map<string, Section>, name: string, k: Kind)
    requires ParseItp(lines).Ok? && p == Decode(Sections(lines)).value
    requires TermKind(name) == Some(k)
    ensures TermsAt(p, name).Some? <==> Bucket(lines, name) != []
    ensures TermsAt(p, name).Some? ==> ParseTerms(k, Bucket(lines, name)) == Ok(TermsAt(p, name).value)
  {
    DecodedFromBucket(lines, name);
    if name in p {
      TermSectionOf(name, k, Bucket(lines, name));
    }
  }

  /** A bonded section decodes to the terms of its decoder. */
  lemma TermSectionOf(name: string, k: Kind, body: seq<string>)
    requires TermKind(name) == Some(k)
    ensures DecodeSection(name, body).Ok? <==> ParseTerms(k, body).Ok?
    ensures DecodeSection(name, body).Ok? ==> DecodeSection(name, body).value == TermSection(ParseTerms(k, body).value)
  {
  }

  /** The moleculetype and atoms sections are decoded by their own decoders
      from the lines stored under their names. */
  lemma TableSectionsDecoded(lines: seq<string>)
    requires ParseItp(lines).Ok?
    ensures var t := ParseItp(lines).value;
      t.moleculetype == (if Bucket(lines, "moleculetype") == [] then None
                         else Some(ParseMoleculetype(Bucket(lines, "moleculetype")))) &&
      t.atoms == (if Bucket(lines, "atoms") == [] then None else Some(ParseAtoms(Bucket(lines, "atoms"))))
  {
    DecodedFromBucket(lines, "moleculetype");
    DecodedFromBucket(lines, "atoms");
  }

  /** Only sections without a decoder of their own are kept as raw lines. */
  lemma RawIffUnknown(name: string, body: seq<string>)
    ensures DecodeSection(name, body).Ok? && DecodeSection(name, body).value.RawSection? <==> name !in KnownSections
    ensures name !in KnownSections ==> DecodeSection(name, body) == Ok(RawSection(body))
  {
  }

  /** Every other section with stored lines is kept verbatim. */
  lemma OtherSectionsKept(lines: seq<string>)
    requires ParseItp(lines).Ok?
    ensures forall n :: n in ParseItp(lines).value.others <==> n !in KnownSections && Bucket(lines, n) != []
    ensures forall n :: n in ParseItp(lines).value.others ==> ParseItp(lines).value.others[n] == Bucket(lines, n)
  {
    var p := Decode(Sections(lines)).value;
    var others := ParseItp(lines).value.others;
    assert others == TopologyOf(p).others;
    forall n
      ensures n in others <==> n !in KnownSections && Bucket(lines, n) != []
      ensures n in others ==> others[n] == Bucket(lines, n)
    {
      DecodedFromBucket(lines, n);
      RawIffUnknown(n, Bucket(lines, n));
    }
  }

  /** A file fails to parse exactly when its angles section holds a line of
      three words. */
  lemma ParseItpFailsIff(lines: seq<string>)
    ensures ParseItp(lines).Err? <==>
      exists i :: 0 <= i < |Bucket(lines, "angles")| && ShortAngleLine(Bucket(lines, "angles")[i])
  {
    var s := Sections(lines);
    var b := Bucket(lines, "angles");
    SectionsAt(lines, "angles");
    assert DecodeSection("angles", b).Err? <==> ParseTerms(Angles, b).Err?;
    assert ParseItp(lines).Err? <==> Decode(s).Err?;
    assert Decode(s).Err? <==> "angles" in s && DecodeSection("angles", s["angles"]).Err?;
    assert ParseTerms(Angles, b).Err? <==> exists i :: 0 <= i < |b| && ShortAngleLine(b[i]);
  }

  /** The classifier drops every `;` line, so a parsed atoms section always
      uses the default field names. */
  lemma ParsedAtomsUseDefaultFields(lines: seq<string>)
    ensures AtomFields(Bucket(lines, "atoms")) == DefaultAtomFields
  {
    BucketHoldsDataLines("", lines, "atoms");
  }
}

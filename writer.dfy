/** `write_itp_file`: the lines the editor writes for a topology. Sections
    come in the fixed order moleculetype, atoms, bonds, pairs, angles,
    dihedrals; a bonded section is written only when it holds a term; any
    other section is never written. Columns are right-justified to fixed
    widths. How Python renders a float (`str` and the `.6f` / `.5f`
    formats) is a parameter. The first exception ends the output. */
module Writer {
  import opened Outcomes
  import opened Text
  import opened Itp
  import opened Deletion
  import opened Reader

  /** Python's renderings of a float: `show` is `str(x)` (what `{x:>5}`
      pads), `fixed(x, p)` is `{x:.pf}`. */
  datatype Formats = Formats(show: real -> string, fixed: (real, nat) -> string)

  /** `{s:>width}`: `s` right-justified in a column of `width` characters,
      never truncated. */
  function PadLeft(s: string, width: nat): (r: string)
    ensures |r| == if |s| < width then width else |s|
    ensures r == Spaces(|r| - |s|) + s
  {
    if |s| < width then Spaces(width - |s|) + s else s
  }

  /** `str(v)` for a value of an atom record. */
  function Show(v: Value, fmt: Formats): string {
    match v
    case IntVal(i) => IntToString(i)
    case RealVal(r) => fmt.show(r)
    case StrVal(s) => s
  }

  // ---------------------------------------------------------------- moleculetype

  /** The `[ moleculetype ]` block: KeyError when `name` or `nrexcl` is missing. */
  function MoleculeBlock(m: Option<map<string, string>>): (r: Result<seq<string>>)
    ensures r.Err? <==> m.Some? && ("name" !in m.value || "nrexcl" !in m.value)
    ensures r.Err? ==> r.error == KeyError
    ensures r.Ok? && m.Some? ==>
      |r.value| == 4 && r.value[0] == "[ moleculetype ]" && r.value[1] == ";name            nrexcl" &&
      r.value[2] == m.value["name"] + "     " + m.value["nrexcl"] && r.value[3] == ""
    ensures r.Ok? && m.None? ==> r.value == []
  {
    match m
    case None => Ok([])
    case Some(f) =>
      if "name" !in f || "nrexcl" !in f then Err(KeyError)
      else Ok(["[ moleculetype ]", ";" + "name            nrexcl", f["name"] + "     " + f["nrexcl"], ""])
  }

  // ---------------------------------------------------------------- atoms

  /** A column of an atom line: a field right-justified to a width, either
      as `str` shows it or as a fixed-point number with some decimal places. */
  datatype Column = Shown(field: string, width: nat) | Fixed(field: string, width: nat, places: nat)

  /** The columns of an atom line, in order. */
  const AtomLayout: seq<Column> := [
    Shown("nr", 5), Shown("type", 5), Shown("resi", 5), Shown("res", 4), Shown("atom", 5), Shown("cgnr", 5),
    Fixed("charge", 10, 6), Fixed("mass", 10, 5)]

  /** The record has the column's field, and a number there if the column is fixed-point. */
  predicate Fits(rec: Record, c: Column) {
    c.field in rec && (c.Fixed? ==> NumberOf(rec[c.field]).Some?)
  }

  /** `{atom[field]:>width}` or `{atom[field]:>width.placesf}`: KeyError
      when the field is missing, ValueError when a fixed-point column holds
      a string. */
  function Cell(rec: Record, c: Column, fmt: Formats): (r: Result<string>)
    ensures r.Ok? <==> Fits(rec, c)
    ensures r.Err? ==> r.error == (if c.field !in rec then KeyError else ValueError)
    ensures r.Ok? && c.Shown? ==> r.value == PadLeft(Show(rec[c.field], fmt), c.width)
    ensures r.Ok? && c.Fixed? ==> r.value == PadLeft(fmt.fixed(NumberOf(rec[c.field]).value, c.places), c.width)
  {
    if c.field !in rec then Err(KeyError)
    else
      match c
      case Shown(_, width) => Ok(PadLeft(Show(rec[c.field], fmt), width))
      case Fixed(_, width, places) =>
        match NumberOf(rec[c.field])
        case None => Err(ValueError)
        case Some(x) => Ok(PadLeft(fmt.fixed(x, places), width))
  }

  /** The columns formatted left to right; the first that does not fit raises. */
  function Cells(rec: Record, layout: seq<Column>, fmt: Formats): (r: Result<seq<string>>)
    ensures r.Ok? <==> forall i :: 0 <= i < |layout| ==> Fits(rec, layout[i])
    ensures r.Ok? ==> |r.value| == |layout| && forall i :: 0 <= i < |layout| ==> Cell(rec, layout[i], fmt) == Ok(r.value[i])
    ensures r.Err? ==> r.error == KeyError || r.error == ValueError
  {
    if layout == [] then Ok([])
    else
      var first :- Cell(rec, layout[0], fmt);
      var rest :- Cells(rec, layout[1..], fmt);
      assert forall i :: 1 <= i < |layout| ==> layout[1..][i - 1] == layout[i];
      Ok([first] + rest)
  }

  /** The atom can be written: every column fits. */
  predicate Writable(rec: Record) {
    forall i :: 0 <= i < |AtomLayout| ==> Fits(rec, AtomLayout[i])
  }

  /** Every atom of the section can be written. */
  predicate AllWritable(atoms: map<Ref, Record>) {
    forall k :: k in atoms ==> Writable(atoms[k])
  }

  /** One atom line: the columns joined by spaces, then the comment, if
      any, after ` ; `. */
  function AtomRow(rec: Record, fmt: Formats): (r: Result<string>)
    ensures r.Ok? <==> Writable(rec)
    ensures r.Err? ==> r.error == KeyError || r.error == ValueError
  {
    var cells :- Cells(rec, AtomLayout, fmt);
    var line := Join(cells, " ");
    Ok(if "comment" in rec then line + " ; " + Show(rec["comment"], fmt) else line)
  }

  /** The lines of the atoms visited in `order`; the first atom that cannot
      be written stops the output. */
  function AtomRows(atoms: map<Ref, Record>, order: seq<nat>, fmt: Formats): (r: Result<seq<string>>)
    requires Listed(atoms, order)
    ensures r.Ok? ==> |r.value| == |order|
    ensures r.Err? ==> r.error == KeyError || r.error == ValueError
  {
    if order == [] then Ok([])
    else
      var n := |order| - 1;
      var before :- AtomRows(atoms, order[..n], fmt);
      var row :- AtomRow(atoms[Id(order[n])], fmt);
      Ok(before + [row])
  }

  /** The `[ atoms ]` block, atoms in ascending order of their ids
      (`sorted(atoms.keys(), key=int)`): ValueError when a key is not an
      integer. The block is written even when the section has no atom. */
  function AtomsBlock(atoms: Option<map<Ref, Record>>, fmt: Formats): (r: Result<seq<string>>)
    ensures r.Ok? && atoms.None? ==> r.value == []
    ensures atoms.Some? && !AllIds(atoms.value) ==> r == Err(ValueError)
  {
    match atoms
    case None => Ok([])
    case Some(table) =>
      if !AllIds(table) then Err(ValueError)
      else
        var order := Ascending(IdsOf(table));
        assert Listed(table, order) by {
          AscendingSorts(IdsOf(table));
          IdsOfListed(table);
        }
        var rows :- AtomRows(table, order, fmt);
        Ok(["[ atoms ]", ";   nr  type  resi  res  atom  cgnr     charge      mass       ; qtot   bond_type"] + rows + [""])
  }

  // ---------------------------------------------------------------- bonded terms

  /** The section name of a bonded kind. */
  function SectionName(k: Kind): string {
    match k
    case Bonds => "bonds"
    case Pairs => "pairs"
    case Angles => "angles"
    case Dihedrals => "dihedrals"
  }

  /** The column comment under each bonded header: a `;` and the column names. */
  function ColumnLine(k: Kind): string {
    ";" + match k
      case Bonds => "   ai     aj funct   r             k"
      case Pairs => "   ai     aj    funct"
      case Angles => "   ai     aj     ak    funct   theta         cth"
      case Dihedrals => "   ai     aj     ak     al   func   phase     kd      pn"
  }

  /** Width of the function-code column. */
  function FunctWidth(k: Kind): nat {
    if k == Bonds || k == Dihedrals then 5 else 7
  }

  /** How the references are written: each as its id or its token. */
  function RefTexts(refs: seq<Ref>): (r: seq<string>)
    ensures |r| == |refs| && forall i :: 0 <= i < |refs| ==> r[i] == RefText(refs[i])
  {
    seq(|refs|, i requires 0 <= i < |refs| => RefText(refs[i]))
  }

  /** Each text right-justified in a column of the same width. */
  function Padded(ws: seq<string>, width: nat): (r: seq<string>)
    ensures |r| == |ws| && forall i :: 0 <= i < |ws| ==> r[i] == PadLeft(ws[i], width)
  {
    seq(|ws|, i requires 0 <= i < |ws| => PadLeft(ws[i], width))
  }

  /** The parameter columns: bonds and angles write the first two
      parameters, twelve wide, and fail with IndexError when there is only
      one; pairs write none; dihedrals write all of them joined by spaces
      in one column seven wide. */
  function ParameterColumns(k: Kind, p: seq<string>): (r: Result<seq<string>>)
    ensures r.Err? <==> (k == Bonds || k == Angles) && |p| == 1
    ensures r.Err? ==> r.error == IndexError
  {
    match k
    case Pairs => Ok([])
    case Dihedrals => Ok(if p == [] then [] else [PadLeft(Join(p, " "), 7)])
    case _ =>
      if p == [] then Ok([])
      else if |p| < 2 then Err(IndexError)
      else Ok([PadLeft(p[0], 12), PadLeft(p[1], 12)])
  }

  /** The comment of a term, written only when non-empty: after ` ; ` in
      the bonds section, after a single space elsewhere. */
  function CommentTail(k: Kind, c: string): string {
    if c == "" then "" else (if k == Bonds then " ; " else " ") + c
  }

  /** One line of a bonded section: KeyError when the term has fewer atoms
      than its kind needs, IndexError for a bond or angle with exactly one
      parameter. */
  function TermRow(k: Kind, t: Term): (r: Result<string>)
    ensures r.Err? <==> |t.refs| < Arity(k) || ((k == Bonds || k == Angles) && |t.parameters| == 1)
    ensures r.Err? ==> r.error == (if |t.refs| < Arity(k) then KeyError else IndexError)
  {
    if |t.refs| < Arity(k) then Err(KeyError)
    else
      var params :- ParameterColumns(k, t.parameters);
      var refs := Padded(RefTexts(t.refs[..Arity(k)]), 6);
      Ok(Join(refs + [PadLeft(t.funct, FunctWidth(k))] + params, " ") + CommentTail(k, t.comment))
  }

  /** The lines of the terms, in order; the first failing term stops the output. */
  function TermRows(k: Kind, terms: seq<Term>): (r: Result<seq<string>>)
    ensures r.Ok? ==> |r.value| == |terms|
  {
    if terms == [] then Ok([])
    else
      var n := |terms| - 1;
      var before :- TermRows(k, terms[..n]);
      var row :- TermRow(k, terms[n]);
      Ok(before + [row])
  }

  /** A bonded block, written only when the section is present and holds a term. */
  function TermBlock(k: Kind, section: Option<seq<Term>>): (r: Result<seq<string>>)
    ensures r.Ok? && (section.None? || section.value == []) ==> r.value == []
  {
    if section.None? || section.value == [] then Ok([])
    else
      var rows :- TermRows(k, section.value);
      Ok(["[ " + SectionName(k) + " ]", ColumnLine(k)] + rows + [""])
  }

  // ---------------------------------------------------------------- the file

  /** `write_itp_file(itp_data, output_file)`: the file's lines, or the
      exception that stops the writer. */
  function Write(t: Topology, fmt: Formats): Result<seq<string>> {
    var molecule :- MoleculeBlock(t.moleculetype);
    var atoms :- AtomsBlock(t.atoms, fmt);
    var bonds :- TermBlock(Bonds, t.bonds);
    var pairs :- TermBlock(Pairs, t.pairs);
    var angles :- TermBlock(Angles, t.angles);
    var dihedrals :- TermBlock(Dihedrals, t.dihedrals);
    Ok(molecule + atoms + bonds + pairs + angles + dihedrals)
  }
}

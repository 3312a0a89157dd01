/** The in-memory form of a GROMACS `.itp` molecular topology, as the editor
    holds it between parsing, editing and writing. */
module Itp {
  import opened Outcomes
  import opened Text

  /** A token of an `[ atoms ]` line after numeric coercion: an `int`, a
      `float` (an exact real here) or the raw string when neither parse works. */
  datatype Value = IntVal(i: int) | RealVal(r: real) | StrVal(s: string)

  /** One atom: field name to value, plus `comment` when the line had one. */
  type Record = map<string, Value>

  /** An atom id as it appears in the text. The editor compares ids as
      strings against `str(n)`, so a token names atom `n` exactly when it is
      the canonical numeral of `n`; every other token is kept verbatim. */
  datatype Ref = Id(n: nat) | Raw(text: string)

  /** A bonded term: the atom references (two for bonds and pairs, three for
      angles, four for dihedrals), the function code, the parameters and the
      trailing comment ("" when there is none). */
  datatype Term = Term(refs: seq<Ref>, funct: string, parameters: seq<string>, comment: string)

  /** The decoded sections; a section is present when the file had at least
      one content line under its header. */
  datatype Topology = Topology(
    moleculetype: Option<map<string, string>>,
    atoms: Option<map<Ref, Record>>,
    bonds: Option<seq<Term>>,
    pairs: Option<seq<Term>>,
    angles: Option<seq<Term>>,
    dihedrals: Option<seq<Term>>,
    others: map<string, seq<string>>)

  /** How a token is read as an atom id. */
  function RefOf(tok: string): Ref {
    if IsCanonical(tok) then Id(DigitsValue(tok)) else Raw(tok)
  }

  /** How an atom id is written back: `str(n)`, or the token as it was. */
  function RefText(r: Ref): string {
    match r
    case Id(n) => NatToString(n)
    case Raw(t) => t
  }

  /** A reference that some token reads as. */
  predicate WellFormedRef(r: Ref) {
    r.Raw? ==> !IsCanonical(r.text)
  }

  /** Reading a token as an id and writing it back gives the token. */
  lemma RefTextOf(tok: string)
    ensures WellFormedRef(RefOf(tok)) && RefText(RefOf(tok)) == tok
  {
    if IsCanonical(tok) {
      CanonicalRoundTrip(tok);
    }
  }

  /** Writing an id and reading it back gives the id. */
  lemma RefOfText(r: Ref)
    requires WellFormedRef(r)
    ensures RefOf(RefText(r)) == r
  {
    if r.Id? {
      NatToStringCanonical(r.n);
    }
  }

  /** The number Python's arithmetic sees in a value; strings have none. */
  function NumberOf(v: Value): Option<real> {
    match v
    case IntVal(i) => Some(i as real)
    case RealVal(r) => Some(r)
    case StrVal(_) => None
  }
}

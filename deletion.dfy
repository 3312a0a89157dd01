/** What `delete_atoms_and_renumber` does to the topology, stated as
    functions: the charge of the deleted atoms spread over the survivors, the
    survivors renumbered 1..N in ascending order of their old ids, and the
    bonded terms filtered and rewritten through the old-to-new id mapping.
    The in-place method that follows these steps is `Editing.ItpData`. */
module Deletion {
  import opened Outcomes
  import opened Text
  import opened Itp

  /** `[str(atom_id) for atom_id in atoms_to_delete]`. */
  function NamesOf(ids: seq<nat>): (names: seq<string>)
    ensures |names| == |ids|
    ensures forall i :: 0 <= i < |ids| ==> RefOf(names[i]) == Id(ids[i])
  {
    assert forall i :: 0 <= i < |ids| ==> RefOf(NatToString(ids[i])) == Id(ids[i]) by {
      forall i | 0 <= i < |ids| ensures RefOf(NatToString(ids[i])) == Id(ids[i]) {
        RefOfText(Id(ids[i]));
      }
    }
    seq(|ids|, i requires 0 <= i < |ids| => NatToString(ids[i]))
  }

  // ---------------------------------------------------------------- charge

  /** `itp_data['atoms'][name]['charge']` as a number: KeyError when the
      section, the atom or the field is missing, TypeError when the field
      holds a string. */
  function ChargeOf(atoms: Option<map<Ref, Record>>, name: string): (r: Result<real>)
    ensures r.Err? ==> r.error == KeyError || r.error == TypeError
    ensures r.Ok? ==> (atoms.Some? && RefOf(name) in atoms.value && "charge" in atoms.value[RefOf(name)] &&
                       NumberOf(atoms.value[RefOf(name)]["charge"]) == Some(r.value))
  {
    if atoms.None? || RefOf(name) !in atoms.value || "charge" !in atoms.value[RefOf(name)] then Err(KeyError)
    else
      match NumberOf(atoms.value[RefOf(name)]["charge"])
      case None => Err(TypeError)
      case Some(c) => Ok(c)
  }

  /** `charge_delete`: the charges of the listed atoms added up in list
      order; the first lookup that fails stops the sum. */
  function DeletedCharge(atoms: Option<map<Ref, Record>>, names: seq<string>): (r: Result<real>)
    ensures r.Err? ==> r.error == KeyError || r.error == TypeError
  {
    if names == [] then Ok(0.0)
    else
      var n := |names| - 1;
      var sum :- DeletedCharge(atoms, names[..n]);
      var c :- ChargeOf(atoms, names[n]);
      Ok(sum + c)
  }

  /** Once a lookup fails, the rest of the list does not matter. */
  lemma {:induction false} DeletedChargeStops(atoms: Option<map<Ref, Record>>, names: seq<string>, i: nat)
    requires i <= |names| && DeletedCharge(atoms, names[..i]).Err?
    ensures DeletedCharge(atoms, names) == DeletedCharge(atoms, names[..i])
    decreases |names| - i
  {
    if i < |names| {
      assert names[..i + 1][..i] == names[..i];
      DeletedChargeStops(atoms, names, i + 1);
    } else {
      assert names[..i] == names;
    }
  }

  /** The sum succeeds exactly when every listed atom has a numeric charge. */
  lemma {:induction false} DeletedChargeOk(atoms: Option<map<Ref, Record>>, names: seq<string>)
    ensures DeletedCharge(atoms, names).Ok? <==> forall i :: 0 <= i < |names| ==> ChargeOf(atoms, names[i]).Ok?
  {
    if names != [] {
      var n := |names| - 1;
      DeletedChargeOk(atoms, names[..n]);
      assert forall i :: 0 <= i < n ==> names[..n][i] == names[i];
    }
  }

  // ---------------------------------------------------------------- deletion

  /** The dictionary keys the listed names denote. */
  function Deleted(names: seq<string>): set<Ref> {
    set name | name in names :: RefOf(name)
  }

  /** The atoms that survive the `del` loop. */
  function Remove(atoms: map<Ref, Record>, gone: set<Ref>): (r: map<Ref, Record>)
    ensures r.Keys == atoms.Keys - gone
    ensures forall k :: k in r ==> r[k] == atoms[k]
  {
    map k | k in atoms && k !in gone :: atoms[k]
  }

  /** Every key parses as an integer, so `sorted(..., key=int)` succeeds. */
  predicate AllIds(atoms: map<Ref, Record>) {
    forall k :: k in atoms ==> k.Id?
  }

  /** The numeric ids of the atoms. */
  function IdsOf(atoms: map<Ref, Record>): set<nat> {
    set k | k in atoms && k.Id? :: k.n
  }

  /** Each numeric id is the id of an atom. */
  lemma IdsOfListed(atoms: map<Ref, Record>)
    ensures forall n :: n in IdsOf(atoms) ==> Id(n) in atoms
  {
    forall n | n in IdsOf(atoms) ensures Id(n) in atoms {
      var k :| k in atoms && k.Id? && k.n == n;
    }
  }

  /** A set of ids holding `y` has a least element: either `y` is one, or
      some smaller member of the set is. */
  lemma {:induction false} LeastExists(s: set<nat>, y: nat)
    requires y in s
    ensures exists m :: m in s && forall x :: x in s ==> m <= x
    decreases y
  {
    if exists x :: x in s && x < y {
      var x :| x in s && x < y;
      LeastExists(s, x);
    } else {
      assert forall x :: x in s ==> y <= x;
    }
  }

  /** The least id of a set. */
  function Least(s: set<nat>): (m: nat)
    requires s != {}
    ensures m in s && forall x :: x in s ==> m <= x
  {
    var y :| y in s;
    LeastExists(s, y);
    var m :| m in s && forall x :: x in s ==> m <= x;
    m
  }

  /** The ids in ascending order: the order `sorted(..., key=int)` visits. */
  function Ascending(s: set<nat>): seq<nat>
    decreases |s|
  {
    if s == {} then []
    else
      var m := Least(s);
      [m] + Ascending(s - {m})
  }

  /** Putting the least element of a set in front of a sorted listing of
      the others sorts the whole set. */
  lemma PrependLeast(s: set<nat>, m: nat, rest: seq<nat>)
    requires m in s && forall x :: x in s ==> m <= x
    requires |rest| == |s - {m}| && (forall x :: x in s - {m} <==> x in rest) && Increasing(rest)
    ensures |[m] + rest| == |s|
    ensures forall x :: x in s <==> x in [m] + rest
    ensures Increasing([m] + rest)
  {
    var a := [m] + rest;
    forall x ensures x in s <==> x in a {
      assert x in a <==> x == m || x in rest;
    }
    forall i, j | 0 <= i < j < |a| ensures a[i] < a[j] {
      assert a[j] == rest[j - 1] && rest[j - 1] in s - {m};
      if i > 0 {
        assert a[i] == rest[i - 1];
      }
    }
  }

  /** `Ascending` lists each id of the set once, in strictly increasing order. */
  lemma {:induction false} AscendingSorts(s: set<nat>)
    ensures |Ascending(s)| == |s|
    ensures forall x :: x in s <==> x in Ascending(s)
    ensures Increasing(Ascending(s))
    decreases |s|
  {
    if s != {} {
      var m := Least(s);
      AscendingSorts(s - {m});
      PrependLeast(s, m, Ascending(s - {m}));
    }
  }

  // ---------------------------------------------------------------- renumbering

  /** `atom_info['nr'] = new_id`. */
  function WithNr(rec: Record, newId: nat): Record {
    rec["nr" := IntVal(newId)]
  }

  /** `atom_info['charge'] += avg_charge`: KeyError without a charge,
      TypeError for a string; the sum of an int or a float and a float is a
      float. */
  function ShiftCharge(rec: Record, avg: real): (r: Result<Record>)
    ensures r.Ok? <==> "charge" in rec && NumberOf(rec["charge"]).Some?
    ensures r.Ok? ==> r.value == rec["charge" := RealVal(NumberOf(rec["charge"]).value + avg)]
    ensures r.Err? ==> r.error == (if "charge" in rec then TypeError else KeyError)
  {
    if "charge" !in rec then Err(KeyError)
    else
      match NumberOf(rec["charge"])
      case None => Err(TypeError)
      case Some(c) => Ok(rec["charge" := RealVal(c + avg)])
  }

  /** The ids are listed in strictly ascending order. */
  predicate Increasing(order: seq<nat>) {
    forall i, j :: 0 <= i < j < |order| ==> order[i] < order[j]
  }

  /** Every listed id names an atom. */
  predicate Listed(atoms: map<Ref, Record>, order: seq<nat>) {
    forall i :: 0 <= i < |order| ==> Id(order[i]) in atoms
  }

  /** The renumbering loop run over `order` on the dictionaries in place:
      the atom at position j gets `nr` j + 1 and then its shifted charge.
      The loop stops at the first charge that cannot be shifted, leaving the
      new `nr` on that atom; the error is returned alongside. */
  function AdjustAlong(atoms: map<Ref, Record>, order: seq<nat>, avg: real): (r: (map<Ref, Record>, Option<Exception>))
    requires Listed(atoms, order)
    ensures r.0.Keys == atoms.Keys
    ensures r.1.Some? ==> r.1.value == KeyError || r.1.value == TypeError
  {
    if order == [] then (atoms, None)
    else
      var n := |order| - 1;
      assert Listed(atoms, order[..n]) by {
        forall i | 0 <= i < n ensures Id(order[..n][i]) in atoms {
          assert order[..n][i] == order[i];
        }
      }
      var prior := AdjustAlong(atoms, order[..n], avg);
      if prior.1.Some? then prior
      else
        var key := Id(order[n]);
        var rec := WithNr(prior.0[key], n + 1);
        match ShiftCharge(rec, avg)
        case Err(e) => (prior.0[key := rec], Some(e))
        case Ok(shifted) => (prior.0[key := shifted], None)
  }

  /** The keys `'1'` .. `str(n)`. */
  function Positions(n: nat): (r: set<Ref>)
    ensures forall k :: k in r <==> k.Id? && 1 <= k.n <= n
  {
    if n == 0 then {} else Positions(n - 1) + {Id(n)}
  }

  lemma ListedPrefix(atoms: map<Ref, Record>, order: seq<nat>, i: nat)
    requires Listed(atoms, order) && i <= |order|
    ensures Listed(atoms, order[..i])
  {
    assert forall j :: 0 <= j < i ==> order[..i][j] == order[j];
  }

  /** Once a charge cannot be shifted the loop is over. */
  lemma {:induction false} AdjustAlongStops(atoms: map<Ref, Record>, order: seq<nat>, avg: real, i: nat)
    requires Listed(atoms, order) && i <= |order|
    requires (ListedPrefix(atoms, order, i); AdjustAlong(atoms, order[..i], avg).1.Some?)
    ensures AdjustAlong(atoms, order, avg) == AdjustAlong(atoms, order[..i], avg)
    decreases |order| - i
  {
    if i < |order| {
      ListedPrefix(atoms, order, i + 1);
      assert order[..i + 1][..i] == order[..i];
      AdjustAlongStops(atoms, order, avg, i + 1);
    } else {
      assert order[..i] == order;
    }
  }

  /** `new_atoms`: the atom at position j of `order` under key j + 1. */
  function Renumbered(atoms: map<Ref, Record>, order: seq<nat>): (r: map<Ref, Record>)
    requires Listed(atoms, order)
    ensures forall k :: k in r <==> k.Id? && 1 <= k.n <= |order|
    ensures forall i :: 0 <= i < |order| ==> r[Id(i + 1)] == atoms[Id(order[i])]
  {
    map k | k in Positions(|order|) :: atoms[Id(order[k.n - 1])]
  }

  /** The first `n` entries of `id_mapping`: old id to new id. */
  function MappingUpTo(order: seq<nat>, n: nat): (r: map<nat, nat>)
    requires Increasing(order) && n <= |order|
    ensures forall i :: 0 <= i < n ==> order[i] in r && r[order[i]] == i + 1
    ensures forall k :: k in r ==> exists i :: 0 <= i < n && order[i] == k
  {
    if n == 0 then map[] else MappingUpTo(order, n - 1)[order[n - 1] := n]
  }

  /** `id_mapping`. */
  function Mapping(order: seq<nat>): map<nat, nat>
    requires Increasing(order)
  {
    MappingUpTo(order, |order|)
  }

  // ---------------------------------------------------------------- bonded terms

  /** `id_mapping.get(ref, ref)`. */
  function Remap(r: Ref, mapping: map<nat, nat>): Ref {
    if r.Id? && r.n in mapping then Id(mapping[r.n]) else r
  }

  /** One of the term's references is, as text, in the deletion list. */
  predicate Mentions(t: Term, names: seq<string>) {
    exists i :: 0 <= i < |t.refs| && RefText(t.refs[i]) in names
  }

  /** The copy of a kept term with its references rewritten. */
  function Rewrite(t: Term, mapping: map<nat, nat>): (r: Term)
    ensures |r.refs| == |t.refs| && forall i :: 0 <= i < |t.refs| ==> r.refs[i] == Remap(t.refs[i], mapping)
    ensures r.funct == t.funct && r.parameters == t.parameters && r.comment == t.comment
  {
    t.(refs := seq(|t.refs|, i requires 0 <= i < |t.refs| => Remap(t.refs[i], mapping)))
  }

  /** The filtering loop of one bonded section. */
  function KeepTerms(terms: seq<Term>, names: seq<string>, mapping: map<nat, nat>): seq<Term> {
    if terms == [] then []
    else
      var n := |terms| - 1;
      KeepTerms(terms[..n], names, mapping) +
        if Mentions(terms[n], names) then [] else [Rewrite(terms[n], mapping)]
  }

  /** A bonded section after the filter, when it is present. */
  function KeepSection(section: Option<seq<Term>>, names: seq<string>, mapping: map<nat, nat>): Option<seq<Term>> {
    match section
    case None => None
    case Some(terms) => Some(KeepTerms(terms, names, mapping))
  }

  // ---------------------------------------------------------------- loop steps

  /** One more pass of the `del` loop. */
  lemma RemoveStep(atoms: map<Ref, Record>, names: seq<string>, i: nat)
    requires i < |names|
    ensures Remove(atoms, Deleted(names[..i + 1])) == Remove(atoms, Deleted(names[..i])) - {RefOf(names[i])}
  {
    assert names[..i + 1] == names[..i] + [names[i]];
    assert Deleted(names[..i + 1]) == Deleted(names[..i]) + {RefOf(names[i])};
  }

  /** The ids of a prefix of an ascending list ascend. */
  lemma IncreasingPrefix(order: seq<nat>, i: nat)
    requires Increasing(order) && i <= |order|
    ensures Increasing(order[..i])
  {
  }

  /** One more pass of the renumbering loop: storing the updated record of
      the atom at position j under key j + 1. */
  lemma RenumberedStep(atoms: map<Ref, Record>, order: seq<nat>, j: nat, rec: Record)
    requires Increasing(order) && Listed(atoms, order) && j < |order|
    ensures Listed(atoms[Id(order[j]) := rec], order[..j + 1]) && Listed(atoms, order[..j])
    ensures Renumbered(atoms[Id(order[j]) := rec], order[..j + 1]) == Renumbered(atoms, order[..j])[Id(j + 1) := rec]
  {
    ListedPrefix(atoms, order, j);
    ListedPrefix(atoms[Id(order[j]) := rec], order, j + 1);
  }

  /** One more pass of the renumbering loop on the records. */
  lemma AdjustStep(atoms: map<Ref, Record>, order: seq<nat>, avg: real, j: nat, cur: map<Ref, Record>)
    requires Listed(atoms, order) && j < |order|
    requires (ListedPrefix(atoms, order, j); AdjustAlong(atoms, order[..j], avg) == (cur, None))
    ensures (ListedPrefix(atoms, order, j + 1); Id(order[j]) in cur &&
      var rec := WithNr(cur[Id(order[j])], j + 1);
      AdjustAlong(atoms, order[..j + 1], avg) ==
        match ShiftCharge(rec, avg)
        case Err(e) => (cur[Id(order[j]) := rec], Some(e))
        case Ok(shifted) => (cur[Id(order[j]) := shifted], None))
  {
    ListedPrefix(atoms, order, j + 1);
    assert order[..j + 1][..j] == order[..j];
  }

  /** The state of the renumbering loop after the first `j` ids of
      `order`: the records so far updated in `table`, stored in `newAtoms`
      under their new ids, and `mapping` holding their entries. */
  predicate Progress(atoms: map<Ref, Record>, order: seq<nat>, avg: real, j: nat,
                     table: map<Ref, Record>, newAtoms: map<Ref, Record>, mapping: map<nat, nat>)
  {
    Increasing(order) && Listed(atoms, order) && Listed(table, order) && j <= |order| &&
    (ListedPrefix(atoms, order, j); ListedPrefix(table, order, j);
     AdjustAlong(atoms, order[..j], avg) == (table, None) &&
     newAtoms == Renumbered(table, order[..j]) &&
     mapping == MappingUpTo(order, j))
  }

  /** One pass of the renumbering loop: either the shifted record is stored
      and the loop goes on, or the charge cannot be shifted and the loop
      ends with the error. */
  lemma ProgressStep(atoms: map<Ref, Record>, order: seq<nat>, avg: real, j: nat,
                     table: map<Ref, Record>, newAtoms: map<Ref, Record>, mapping: map<nat, nat>)
    requires Progress(atoms, order, avg, j, table, newAtoms, mapping) && j < |order|
    ensures Id(order[j]) in table
    ensures var key := Id(order[j]);
            var info := WithNr(table[key], j + 1);
            match ShiftCharge(info, avg)
            case Err(e) => AdjustAlong(atoms, order, avg) == (table[key := info], Some(e))
            case Ok(shifted) =>
              Progress(atoms, order, avg, j + 1, table[key := shifted], newAtoms[Id(j + 1) := shifted],
                       mapping[order[j] := j + 1])
  {
    var key := Id(order[j]);
    var info := WithNr(table[key], j + 1);
    AdjustStep(atoms, order, avg, j, table);
    match ShiftCharge(info, avg)
    case Err(e) =>
      AdjustAlongStops(atoms, order, avg, j + 1);
    case Ok(shifted) =>
      ProgressOk(atoms, order, avg, j, table, newAtoms, mapping, shifted);
  }

  lemma ProgressOk(atoms: map<Ref, Record>, order: seq<nat>, avg: real, j: nat,
                   table: map<Ref, Record>, newAtoms: map<Ref, Record>, mapping: map<nat, nat>, shifted: Record)
    requires Progress(atoms, order, avg, j, table, newAtoms, mapping) && j < |order|
    requires (ListedPrefix(atoms, order, j + 1); AdjustAlong(atoms, order[..j + 1], avg) == (table[Id(order[j]) := shifted], None))
    ensures Progress(atoms, order, avg, j + 1, table[Id(order[j]) := shifted], newAtoms[Id(j + 1) := shifted],
                     mapping[order[j] := j + 1])
  {
    var next := table[Id(order[j]) := shifted];
    assert Listed(next, order) by {
      forall i | 0 <= i < |order| ensures Id(order[i]) in next {
        assert Id(order[i]) in table;
      }
    }
    RenumberedStep(table, order, j, shifted);
    ListedPrefix(next, order, j + 1);
    assert newAtoms[Id(j + 1) := shifted] == Renumbered(next, order[..j + 1]);
    assert mapping[order[j] := j + 1] == MappingUpTo(order, j + 1);
  }

  /** The loop has visited every id. */
  lemma ProgressDone(atoms: map<Ref, Record>, order: seq<nat>, avg: real,
                     table: map<Ref, Record>, newAtoms: map<Ref, Record>, mapping: map<nat, nat>)
    requires Progress(atoms, order, avg, |order|, table, newAtoms, mapping)
    ensures AdjustAlong(atoms, order, avg) == (table, None)
    ensures newAtoms == Renumbered(table, order) && mapping == Mapping(order)
  {
    assert order[..|order|] == order;
  }

  // ---------------------------------------------------------------- the whole call

  /** The atoms left after the `del` loop. */
  function Survivors(atoms: map<Ref, Record>, names: seq<string>): map<Ref, Record> {
    Remove(atoms, Deleted(names))
  }

  /** `avg_charge`: the deleted charge divided by `atom_num`. */
  function Spread(charge: real, atomNum: int): real
    requires atomNum != 0
  {
    charge / (atomNum as real)
  }

  /** `delete_atoms_and_renumber(itp_data, atoms_to_delete, atom_num)` where
      `names` is the list after its `str` conversion: the topology after the
      call and either the id mapping or the exception raised. A call that
      raises leaves what it had already changed: the deletions once they
      have happened, and the `nr` and charge updates up to the failing atom. */
  function Transform(t: Topology, names: seq<string>, atomNum: int): (Topology, Result<map<nat, nat>>) {
    match DeletedCharge(t.atoms, names)
    case Err(e) => (t, Err(e))
    case Ok(charge) =>
      if atomNum == 0 then (t, Err(ZeroDivisionError))
      else if t.atoms.None? then (t, Err(NameError))
      else
        var avg := Spread(charge, atomNum);
        var kept := Survivors(t.atoms.value, names);
        if !AllIds(kept) then (t.(atoms := Some(kept)), Err(ValueError))
        else
          var order := Ascending(IdsOf(kept));
          assert Increasing(order) && Listed(kept, order) by {
            AscendingSorts(IdsOf(kept));
            IdsOfListed(kept);
          }
          var adjusted := AdjustAlong(kept, order, avg);
          if adjusted.1.Some? then (t.(atoms := Some(adjusted.0)), Err(adjusted.1.value))
          else
            var mapping := Mapping(order);
            (Topology(t.moleculetype, Some(Renumbered(adjusted.0, order)),
                      KeepSection(t.bonds, names, mapping), KeepSection(t.pairs, names, mapping),
                      KeepSection(t.angles, names, mapping), KeepSection(t.dihedrals, names, mapping),
                      t.others),
             Ok(mapping))
  }
}

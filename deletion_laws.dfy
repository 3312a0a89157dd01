/** What `delete_atoms_and_renumber` promises: when it succeeds, the
    survivors carry the ids 1..N in the order of their old ids, `id_mapping`
    is the order-preserving bijection between the two numberings, every
    record keeps its fields except `nr` and `charge`, and the bonded
    sections keep exactly the terms that avoid the deleted atoms, rewritten
    into the new numbering. */
module DeletionLaws {
  import opened Outcomes
  import opened Text
  import opened Itp
  import opened Deletion

  /** The record holds a numeric charge. */
  predicate HasCharge(rec: Record) {
    "charge" in rec && NumberOf(rec["charge"]).Some?
  }

  /** The charge of a record that has one. */
  function Charge(rec: Record): real
    requires HasCharge(rec)
  {
    NumberOf(rec["charge"]).value
  }

  /** Every atom holds a numeric charge. */
  predicate Charged(atoms: map<Ref, Record>) {
    forall k :: k in atoms ==> HasCharge(atoms[k])
  }

  /** The conditions under which the call returns normally: the atoms
      section exists, every listed atom has a numeric charge, `atom_num` is
      not zero, and every survivor has an integer id and a numeric charge. */
  predicate Admissible(t: Topology, names: seq<string>, atomNum: int) {
    t.atoms.Some? && atomNum != 0 &&
    (forall i :: 0 <= i < |names| ==> ChargeOf(t.atoms, names[i]).Ok?) &&
    AllIds(Survivors(t.atoms.value, names)) && Charged(Survivors(t.atoms.value, names))
  }

  /** The renumbering loop leaves the records it has not visited alone. */
  lemma {:induction false} AdjustFrame(atoms: map<Ref, Record>, order: seq<nat>, avg: real)
    requires Listed(atoms, order)
    ensures forall k :: k in atoms && (forall i :: 0 <= i < |order| ==> k != Id(order[i])) ==>
      AdjustAlong(atoms, order, avg).0[k] == atoms[k]
  {
    if order != [] {
      var n := |order| - 1;
      ListedPrefix(atoms, order, n);
      AdjustFrame(atoms, order[..n], avg);
      assert forall i :: 0 <= i < n ==> order[..n][i] == order[i];
    }
  }

  /** A surviving record as the renumbering loop leaves it: `nr` set to its
      new id, the charge raised by `avg`, every other field as it was. */
  function Moved(rec: Record, newId: nat, avg: real): (r: Record)
    requires HasCharge(rec)
    ensures r.Keys == rec.Keys + {"nr"}
    ensures "nr" in r && r["nr"] == IntVal(newId) && HasCharge(r) && Charge(r) == Charge(rec) + avg
    ensures forall f :: f in rec && f != "nr" && f != "charge" ==> r[f] == rec[f]
  {
    rec["nr" := IntVal(newId)]["charge" := RealVal(Charge(rec) + avg)]
  }

  /** Renumbering and shifting one record. */
  lemma ShiftedRecord(rec: Record, j: nat, avg: real)
    ensures ShiftCharge(WithNr(rec, j), avg).Ok? <==> HasCharge(rec)
    ensures HasCharge(rec) ==>
      ShiftCharge(WithNr(rec, j), avg) == Ok(Moved(rec, j, avg))
  {
    assert "charge" in WithNr(rec, j) <==> "charge" in rec;
    if "charge" in rec {
      assert WithNr(rec, j)["charge"] == rec["charge"];
    }
  }

  /** The renumbering loop over distinct ids runs to the end exactly when
      every visited atom has a numeric charge. */
  lemma {:induction false} AdjustRuns(atoms: map<Ref, Record>, order: seq<nat>, avg: real)
    requires Increasing(order) && Listed(atoms, order)
    ensures AdjustAlong(atoms, order, avg).1.None? <==> forall i :: 0 <= i < |order| ==> HasCharge(atoms[Id(order[i])])
  {
    if order != [] {
      var n := |order| - 1;
      var prefix := order[..n];
      assert Increasing(prefix);
      ListedPrefix(atoms, order, n);
      AdjustRuns(atoms, prefix, avg);
      AdjustFrame(atoms, prefix, avg);
      var key := Id(order[n]);
      assert forall i :: 0 <= i < n ==> prefix[i] == order[i] && Id(prefix[i]) != key;
      ShiftedRecord(atoms[key], n + 1, avg);
    }
  }

  /** The last atom the loop visits. */
  lemma AdjustLast(atoms: map<Ref, Record>, order: seq<nat>, avg: real)
    requires Increasing(order) && Listed(atoms, order) && order != []
    requires AdjustAlong(atoms, order, avg).1.None?
    ensures var last := order[|order| - 1];
      HasCharge(atoms[Id(last)]) &&
      AdjustAlong(atoms, order, avg).0[Id(last)] == Moved(atoms[Id(last)], |order|, avg)
  {
    var n := |order| - 1;
    var prefix := order[..n];
    ListedPrefix(atoms, order, n);
    var key := Id(order[n]);
    var prior := AdjustAlong(atoms, prefix, avg);
    AdjustFrame(atoms, prefix, avg);
    assert forall j :: 0 <= j < n ==> prefix[j] == order[j] && Id(prefix[j]) != key;
    assert prior.0[key] == atoms[key];
    ShiftedRecord(atoms[key], n + 1, avg);
    assert WithNr(prior.0[key], n + 1) == WithNr(atoms[key], n + 1);
  }

  /** After a complete loop the atom at position i holds `nr` i + 1 and its
      charge shifted by `avg`, its other fields as they were. */
  lemma {:induction false} AdjustAt(atoms: map<Ref, Record>, order: seq<nat>, avg: real, i: nat)
    requires Increasing(order) && Listed(atoms, order) && AdjustAlong(atoms, order, avg).1.None?
    requires i < |order|
    ensures HasCharge(atoms[Id(order[i])])
    ensures AdjustAlong(atoms, order, avg).0[Id(order[i])] == Moved(atoms[Id(order[i])], i + 1, avg)
  {
    var n := |order| - 1;
    if i == n {
      AdjustLast(atoms, order, avg);
    } else {
      var prefix := order[..n];
      assert Increasing(prefix);
      ListedPrefix(atoms, order, n);
      assert prefix[i] == order[i] && Id(order[i]) != Id(order[n]);
      AdjustAt(atoms, prefix, avg, i);
    }
  }

  /** `new_atoms` after a complete loop: the atom at position i of `order`
      sits under id i + 1, renumbered and with its charge shifted. */
  lemma RenumberedRecord(atoms: map<Ref, Record>, order: seq<nat>, avg: real, i: nat)
    requires Increasing(order) && Listed(atoms, order) && AdjustAlong(atoms, order, avg).1.None?
    requires i < |order|
    ensures HasCharge(atoms[Id(order[i])])
    ensures Id(i + 1) in Renumbered(AdjustAlong(atoms, order, avg).0, order)
    ensures Renumbered(AdjustAlong(atoms, order, avg).0, order)[Id(i + 1)] ==
      Moved(atoms[Id(order[i])], i + 1, avg)
  {
    AdjustAt(atoms, order, avg, i);
  }

  /** `id_mapping` built over distinct ascending ids: its keys are the ids,
      it preserves their order, and its values are exactly 1..N. */
  lemma MappingLaws(order: seq<nat>)
    requires Increasing(order)
    ensures forall a :: a in Mapping(order) <==> a in order
    ensures forall i :: 0 <= i < |order| ==> Mapping(order)[order[i]] == i + 1
    ensures forall a, b :: a in Mapping(order) && b in Mapping(order) ==>
      (a < b <==> Mapping(order)[a] < Mapping(order)[b])
    ensures forall a :: a in Mapping(order) ==> 1 <= Mapping(order)[a] <= |order|
  {
    var mapping := Mapping(order);
    forall a ensures a in mapping <==> a in order {
      if a in mapping {
        var i :| 0 <= i < |order| && order[i] == a;
      }
      if a in order {
        var i :| 0 <= i < |order| && order[i] == a;
      }
    }
    forall a, b | a in mapping && b in mapping ensures a < b <==> mapping[a] < mapping[b] {
      var i :| 0 <= i < |order| && order[i] == a;
      var j :| 0 <= j < |order| && order[j] == b;
      if i < j {
        assert a < b;
      } else if j < i {
        assert b < a;
      }
    }
    forall a | a in mapping ensures 1 <= mapping[a] <= |order| {
      var i :| 0 <= i < |order| && order[i] == a;
    }
  }

  /** A call that returns normally went through every step of `Transform`. */
  lemma Succeeded(t: Topology, names: seq<string>, atomNum: int)
    requires Transform(t, names, atomNum).1.Ok?
    ensures DeletedCharge(t.atoms, names).Ok? && atomNum != 0 && t.atoms.Some?
    ensures var kept := Survivors(t.atoms.value, names);
      var order := Ascending(IdsOf(kept));
      var avg := Spread(DeletedCharge(t.atoms, names).value, atomNum);
      AllIds(kept) && Increasing(order) && Listed(kept, order) &&
      AdjustAlong(kept, order, avg).1.None? &&
      Transform(t, names, atomNum).0.atoms == Some(Renumbered(AdjustAlong(kept, order, avg).0, order)) &&
      Transform(t, names, atomNum).1 == Ok(Mapping(order))
  {
    var kept := Survivors(t.atoms.value, names);
    AscendingSorts(IdsOf(kept));
    IdsOfListed(kept);
  }

  /** The call returns normally exactly under `Admissible`. */
  lemma TransformSucceedsIff(t: Topology, names: seq<string>, atomNum: int)
    ensures Transform(t, names, atomNum).1.Ok? <==> Admissible(t, names, atomNum)
  {
    DeletedChargeOk(t.atoms, names);
    if DeletedCharge(t.atoms, names).Ok? && atomNum != 0 && t.atoms.Some? {
      var kept := Survivors(t.atoms.value, names);
      if AllIds(kept) {
        var order := Ascending(IdsOf(kept));
        var avg := Spread(DeletedCharge(t.atoms, names).value, atomNum);
        AscendingSorts(IdsOf(kept));
        IdsOfListed(kept);
        AdjustRuns(kept, order, avg);
        if Charged(kept) {
          assert AdjustAlong(kept, order, avg).1.None?;
        }
        if AdjustAlong(kept, order, avg).1.None? {
          forall k | k in kept ensures HasCharge(kept[k]) {
            assert k.n in IdsOf(kept);
            var i :| 0 <= i < |order| && order[i] == k.n;
          }
        }
      }
    }
  }

  /** A call that raises changes at most the atoms section; when the charge
      lookup, the division or the missing atoms section is the cause,
      nothing changes at all. */
  lemma FailureFrame(t: Topology, names: seq<string>, atomNum: int)
    ensures var r := Transform(t, names, atomNum);
      r.1.Err? ==> r.0 == t.(atoms := r.0.atoms)
    ensures var r := Transform(t, names, atomNum);
      (DeletedCharge(t.atoms, names).Err? || atomNum == 0 || t.atoms.None?) ==> r.1.Err? && r.0 == t
    ensures var r := Transform(t, names, atomNum);
      r.1 == Err(ValueError) ==> t.atoms.Some? && r.0.atoms == Some(Survivors(t.atoms.value, names))
  {
  }

  /** The number of survivors. */
  lemma IdsCount(atoms: map<Ref, Record>)
    requires AllIds(atoms)
    ensures |IdsOf(atoms)| == |atoms|
    decreases |atoms|
  {
    if atoms != map[] {
      var k :| k in atoms;
      var rest := atoms - {k};
      IdsCount(rest);
      assert IdsOf(atoms) == IdsOf(rest) + {k.n};
      assert k.n !in IdsOf(rest);
      assert atoms.Keys == rest.Keys + {k};
    }
  }

  /** After a normal return the atoms carry exactly the ids 1..N, N being
      the number of survivors. */
  lemma RenumberedKeys(t: Topology, names: seq<string>, atomNum: int)
    requires Transform(t, names, atomNum).1.Ok?
    ensures var atoms := Transform(t, names, atomNum).0.atoms;
      atoms.Some? && forall k :: k in atoms.value <==> k.Id? && 1 <= k.n <= |Survivors(t.atoms.value, names)|
  {
    Succeeded(t, names, atomNum);
    var kept := Survivors(t.atoms.value, names);
    AscendingSorts(IdsOf(kept));
    IdsCount(kept);
  }

  /** `id_mapping` maps the survivors' old ids onto 1..N, preserving their
      order, and hits every new id. */
  lemma MappingOrder(t: Topology, names: seq<string>, atomNum: int)
    requires Transform(t, names, atomNum).1.Ok?
    ensures var mapping := Transform(t, names, atomNum).1.value;
      var kept := Survivors(t.atoms.value, names);
      (forall a :: a in mapping <==> a in IdsOf(kept)) &&
      (forall a, b :: a in mapping && b in mapping ==> (a < b <==> mapping[a] < mapping[b])) &&
      (forall a :: a in mapping ==> 1 <= mapping[a] <= |kept|) &&
      (forall j :: 1 <= j <= |kept| ==> j in mapping.Values)
  {
    Succeeded(t, names, atomNum);
    var kept := Survivors(t.atoms.value, names);
    var order := Ascending(IdsOf(kept));
    AscendingSorts(IdsOf(kept));
    IdsCount(kept);
    MappingLaws(order);
    var mapping := Mapping(order);
    forall j | 1 <= j <= |kept| ensures j in mapping.Values {
      assert mapping[order[j - 1]] == j;
    }
  }

  /** The atom with old id `a` sits under its new id `mapping[a]`, with `nr`
      set to that id, its charge raised by `avg` and its other fields as
      they were. */
  predicate Carried(before: map<Ref, Record>, mapping: map<nat, nat>, after: map<Ref, Record>, avg: real) {
    forall a :: a in mapping ==>
      Id(a) in before && HasCharge(before[Id(a)]) && Id(mapping[a]) in after &&
      after[Id(mapping[a])] == Moved(before[Id(a)], mapping[a], avg)
  }

  /** After a normal return every survivor is carried to its new id. */
  lemma RecordsCarried(t: Topology, names: seq<string>, atomNum: int)
    requires Transform(t, names, atomNum).1.Ok?
    ensures var r := Transform(t, names, atomNum);
      Carried(Survivors(t.atoms.value, names), r.1.value, r.0.atoms.value,
              Spread(DeletedCharge(t.atoms, names).value, atomNum))
  {
    Succeeded(t, names, atomNum);
    var kept := Survivors(t.atoms.value, names);
    var order := Ascending(IdsOf(kept));
    var avg := Spread(DeletedCharge(t.atoms, names).value, atomNum);
    CarriedAlong(kept, order, avg);
  }

  lemma CarriedAlong(atoms: map<Ref, Record>, order: seq<nat>, avg: real)
    requires Increasing(order) && Listed(atoms, order) && AdjustAlong(atoms, order, avg).1.None?
    ensures Carried(atoms, Mapping(order), Renumbered(AdjustAlong(atoms, order, avg).0, order), avg)
  {
    MappingLaws(order);
    var mapping := Mapping(order);
    var renumbered := Renumbered(AdjustAlong(atoms, order, avg).0, order);
    forall a | a in mapping
      ensures Id(a) in atoms && HasCharge(atoms[Id(a)]) && Id(mapping[a]) in renumbered
      ensures renumbered[Id(mapping[a])] == Moved(atoms[Id(a)], mapping[a], avg)
    {
      var i :| 0 <= i < |order| && order[i] == a;
      RenumberedRecord(atoms, order, avg, i);
    }
  }

  /** After a normal return every atom's `nr` equals its key. */
  lemma NrMatchesKey(t: Topology, names: seq<string>, atomNum: int)
    requires Transform(t, names, atomNum).1.Ok?
    ensures var atoms := Transform(t, names, atomNum).0.atoms.value;
      forall k :: k in atoms ==> k.Id? && "nr" in atoms[k] && atoms[k]["nr"] == IntVal(k.n)
  {
    Succeeded(t, names, atomNum);
    var kept := Survivors(t.atoms.value, names);
    var order := Ascending(IdsOf(kept));
    var avg := Spread(DeletedCharge(t.atoms, names).value, atomNum);
    NrAlong(kept, order, avg);
  }

  lemma NrAlong(atoms: map<Ref, Record>, order: seq<nat>, avg: real)
    requires Increasing(order) && Listed(atoms, order) && AdjustAlong(atoms, order, avg).1.None?
    ensures var renumbered := Renumbered(AdjustAlong(atoms, order, avg).0, order);
      forall k :: k in renumbered ==> k.Id? && "nr" in renumbered[k] && renumbered[k]["nr"] == IntVal(k.n)
  {
    var renumbered := Renumbered(AdjustAlong(atoms, order, avg).0, order);
    forall k | k in renumbered ensures k.Id? && "nr" in renumbered[k] && renumbered[k]["nr"] == IntVal(k.n) {
      var i := k.n - 1;
      assert k == Id(i + 1);
      RenumberedRecord(atoms, order, avg, i);
    }
  }

  /** No listed atom is a key of `id_mapping`. */
  lemma DeletedGone(t: Topology, names: seq<string>, atomNum: int)
    requires Transform(t, names, atomNum).1.Ok?
    ensures forall name :: name in names && RefOf(name).Id? ==>
      RefOf(name).n !in Transform(t, names, atomNum).1.value
  {
    MappingOrder(t, names, atomNum);
    forall name | name in names && RefOf(name).Id?
      ensures RefOf(name).n !in IdsOf(Survivors(t.atoms.value, names))
    {
      IdsOfListed(Survivors(t.atoms.value, names));
    }
  }
}

/** Charge conservation. `delete_atoms_and_renumber` adds
    `charge_delete / atom_num` to each survivor; when the deleted ids are
    distinct and `atom_num` is the number of survivors, as the driver
    computes it (`len(atoms) - len(atoms_to_delete)`), the charge removed
    with the deleted atoms comes back spread over the survivors and the
    molecule's total charge is unchanged. Charges are exact reals here. */
module ChargeLaws {
  import opened Outcomes
  import opened Itp
  import opened Deletion
  import opened DeletionLaws

  /** Some key of a non-empty atoms section. */
  ghost function Pick(atoms: map<Ref, Record>): (k: Ref)
    requires atoms != map[]
    ensures k in atoms
  {
    var k :| k in atoms; k
  }

  /** The total charge of a section whose atoms all have numeric charges. */
  ghost function Total(atoms: map<Ref, Record>): real
    requires Charged(atoms)
    decreases |atoms|
  {
    if atoms == map[] then 0.0
    else
      var k := Pick(atoms);
      Charge(atoms[k]) + Total(atoms - {k})
  }

  /** The total does not depend on which atom is taken out first. */
  lemma {:induction false} TotalRemove(atoms: map<Ref, Record>, k: Ref)
    requires Charged(atoms) && k in atoms
    ensures Total(atoms) == Charge(atoms[k]) + Total(atoms - {k})
    decreases |atoms|
  {
    var p := Pick(atoms);
    if p != k {
      var both := atoms - {p} - {k};
      assert atoms - {k} - {p} == both;
      TotalRemove(atoms - {p}, k);
      TotalRemove(atoms - {k}, p);
    }
  }

  /** The charges of the atoms under `keys`, added up in that order. */
  ghost function SumAt(atoms: map<Ref, Record>, keys: seq<Ref>): real
    requires forall i :: 0 <= i < |keys| ==> keys[i] in atoms && HasCharge(atoms[keys[i]])
  {
    if keys == [] then 0.0
    else
      var n := |keys| - 1;
      SumAt(atoms, keys[..n]) + Charge(atoms[keys[n]])
  }

  /** `avg` added up `n` times. */
  function Repeated(avg: real, n: nat): real {
    if n == 0 then 0.0 else Repeated(avg, n - 1) + avg
  }

  /** Spreading a charge over `n` atoms and adding the shares back up
      gives the charge again. */
  lemma {:induction false} RepeatedSpread(charge: real, n: nat)
    requires n != 0
    ensures Repeated(Spread(charge, n), n) == charge
  {
    RepeatedTimes(Spread(charge, n), n);
  }

  lemma {:induction false} RepeatedTimes(avg: real, n: nat)
    ensures Repeated(avg, n) == (n as real) * avg
  {
    if n != 0 {
      RepeatedTimes(avg, n - 1);
    }
  }

  /** If each atom under `after` holds the charge of the atom at the same
      position under `before` plus `avg`, the sums differ by `avg` per atom. */
  lemma {:induction false} SumShift(a: map<Ref, Record>, before: seq<Ref>, b: map<Ref, Record>, after: seq<Ref>, avg: real)
    requires |before| == |after|
    requires forall i :: 0 <= i < |before| ==> before[i] in a && HasCharge(a[before[i]])
    requires forall i :: 0 <= i < |after| ==> after[i] in b && HasCharge(b[after[i]])
    requires forall i :: 0 <= i < |before| ==> Charge(b[after[i]]) == Charge(a[before[i]]) + avg
    ensures SumAt(b, after) == SumAt(a, before) + Repeated(avg, |before|)
  {
    if before != [] {
      var n := |before| - 1;
      SumShift(a, before[..n], b, after[..n], avg);
    }
  }

  /** The sum only looks at the atoms under `keys`. */
  lemma {:induction false} SumFrame(a: map<Ref, Record>, b: map<Ref, Record>, keys: seq<Ref>)
    requires forall i :: 0 <= i < |keys| ==> keys[i] in a && keys[i] in b && a[keys[i]] == b[keys[i]] && HasCharge(a[keys[i]])
    ensures SumAt(a, keys) == SumAt(b, keys)
  {
    if keys != [] {
      SumFrame(a, b, keys[..|keys| - 1]);
    }
  }

  /** `keys` names every atom of the section exactly once. */
  ghost predicate Enumerates(atoms: map<Ref, Record>, keys: seq<Ref>) {
    (forall k :: k in atoms <==> k in keys) &&
    (forall i, j :: 0 <= i < j < |keys| ==> keys[i] != keys[j])
  }

  /** Position by position, the atom of `after` holds `avg` more charge
      than its partner in `before`. */
  predicate ShiftedBy(before: map<Ref, Record>, olds: seq<Ref>, after: map<Ref, Record>, news: seq<Ref>, avg: real) {
    |olds| == |news| &&
    forall i :: 0 <= i < |olds| ==>
      olds[i] in before && HasCharge(before[olds[i]]) && news[i] in after && HasCharge(after[news[i]]) &&
      Charge(after[news[i]]) == Charge(before[olds[i]]) + avg
  }

  /** Dropping the last key of an enumeration and its atom leaves an enumeration. */
  lemma EnumeratesStep(atoms: map<Ref, Record>, keys: seq<Ref>)
    requires keys != [] && Enumerates(atoms, keys)
    ensures keys[|keys| - 1] in atoms
    ensures Enumerates(atoms - {keys[|keys| - 1]}, keys[..|keys| - 1])
  {
    var n := |keys| - 1;
    var prefix := keys[..n];
    forall x ensures x in atoms - {keys[n]} <==> x in prefix {
      if x in keys && x != keys[n] {
        var i :| 0 <= i < |keys| && keys[i] == x;
        assert prefix[i] == x;
      }
    }
  }

  /** Adding up along a list that names every atom exactly once gives the total. */
  lemma {:induction false} TotalAlong(atoms: map<Ref, Record>, keys: seq<Ref>)
    requires Charged(atoms) && Enumerates(atoms, keys)
    ensures Total(atoms) == SumAt(atoms, keys)
    decreases |keys|
  {
    if keys == [] {
      assert atoms == map[];
    } else {
      var n := |keys| - 1;
      var k := keys[n];
      EnumeratesStep(atoms, keys);
      TotalRemove(atoms, k);
      TotalAlong(atoms - {k}, keys[..n]);
      SumFrame(atoms - {k}, atoms, keys[..n]);
    }
  }

  /** The listed atoms are present and name distinct keys. */
  predicate DistinctPresent(atoms: map<Ref, Record>, names: seq<string>) {
    (forall i :: 0 <= i < |names| ==> RefOf(names[i]) in atoms) &&
    (forall i, j :: 0 <= i < j < |names| ==> RefOf(names[i]) != RefOf(names[j]))
  }

  /** `charge_delete` after one more listed atom whose charge is found. */
  lemma DeletedChargeLast(atoms: Option<map<Ref, Record>>, names: seq<string>)
    requires names != [] && DeletedCharge(atoms, names[..|names| - 1]).Ok?
    requires ChargeOf(atoms, names[|names| - 1]).Ok?
    ensures DeletedCharge(atoms, names) ==
      Ok(DeletedCharge(atoms, names[..|names| - 1]).value + ChargeOf(atoms, names[|names| - 1]).value)
  {
  }

  /** One more pass of the `del` loop removes an atom that was still there. */
  lemma DeletedStep(atoms: map<Ref, Record>, names: seq<string>)
    requires names != [] && DistinctPresent(atoms, names)
    ensures DistinctPresent(atoms, names[..|names| - 1])
    ensures RefOf(names[|names| - 1]) in Survivors(atoms, names[..|names| - 1])
    ensures Survivors(atoms, names) == Survivors(atoms, names[..|names| - 1]) - {RefOf(names[|names| - 1])}
  {
    var n := |names| - 1;
    var prefix := names[..n];
    var k := RefOf(names[n]);
    assert k !in Deleted(prefix) by {
      forall name | name in prefix ensures RefOf(name) != k {
        var i :| 0 <= i < n && prefix[i] == name;
      }
    }
    RemoveStep(atoms, names, n);
    assert names[..n + 1] == names;
  }

  /** Deleting distinct present atoms removes one atom per name, and their
      charges, as `charge_delete` adds them up, account for the drop in the
      total. */
  lemma {:induction false} TotalDeleted(atoms: map<Ref, Record>, names: seq<string>)
    requires Charged(atoms) && DistinctPresent(atoms, names)
    ensures DeletedCharge(Some(atoms), names).Ok?
    ensures |Survivors(atoms, names)| == |atoms| - |names|
    ensures Charged(Survivors(atoms, names))
    ensures Total(atoms) == Total(Survivors(atoms, names)) + DeletedCharge(Some(atoms), names).value
  {
    if names == [] {
      assert Survivors(atoms, names) == atoms;
    } else {
      var n := |names| - 1;
      var k := RefOf(names[n]);
      DeletedStep(atoms, names);
      TotalDeleted(atoms, names[..n]);
      var before := Survivors(atoms, names[..n]);
      assert ChargeOf(Some(atoms), names[n]) == Ok(Charge(before[k]));
      DeletedChargeLast(Some(atoms), names);
      TotalRemove(before, k);
    }
  }

  /** The keys 1..N of the renumbered section. */
  function NewKeys(n: nat): (keys: seq<Ref>)
    ensures |keys| == n && forall i :: 0 <= i < n ==> keys[i] == Id(i + 1)
  {
    seq(n, i requires 0 <= i < n => Id(i + 1))
  }

  /** The keys of the survivors in ascending order of their old ids. */
  function OldKeys(order: seq<nat>): (keys: seq<Ref>)
    ensures |keys| == |order| && forall i :: 0 <= i < |order| ==> keys[i] == Id(order[i])
  {
    seq(|order|, i requires 0 <= i < |order| => Id(order[i]))
  }

  /** Two sections enumerated position by position, each atom of `after`
      holding `avg` more charge than its partner in `before`: the totals
      differ by `avg` per atom. */
  lemma ShiftedTotal(before: map<Ref, Record>, olds: seq<Ref>, after: map<Ref, Record>, news: seq<Ref>, avg: real)
    requires Charged(before) && Charged(after)
    requires Enumerates(before, olds) && Enumerates(after, news)
    requires ShiftedBy(before, olds, after, news, avg)
    ensures Total(after) == Total(before) + Repeated(avg, |olds|)
  {
    TotalAlong(after, news);
    TotalAlong(before, olds);
    SumShift(before, olds, after, news, avg);
  }

  /** The survivors, listed in ascending order of their ids. */
  lemma OldSide(atoms: map<Ref, Record>, order: seq<nat>, avg: real)
    requires Increasing(order) && Listed(atoms, order) && AdjustAlong(atoms, order, avg).1.None?
    requires forall k :: k in atoms <==> k.Id? && k.n in order
    ensures Charged(atoms) && Enumerates(atoms, OldKeys(order))
  {
    var olds := OldKeys(order);
    forall k | k in atoms ensures HasCharge(atoms[k]) && k in olds {
      var i :| 0 <= i < |order| && order[i] == k.n;
      assert olds[i] == k;
      RenumberedRecord(atoms, order, avg, i);
    }
  }

  /** The renumbered section, listed by its new ids 1..N. */
  lemma NewSide(atoms: map<Ref, Record>, order: seq<nat>, avg: real)
    requires Increasing(order) && Listed(atoms, order) && AdjustAlong(atoms, order, avg).1.None?
    ensures var after := Renumbered(AdjustAlong(atoms, order, avg).0, order);
      Charged(after) && Enumerates(after, NewKeys(|order|))
  {
    var after := Renumbered(AdjustAlong(atoms, order, avg).0, order);
    var news := NewKeys(|order|);
    forall k | k in after ensures HasCharge(after[k]) && k in news {
      assert news[k.n - 1] == k;
      RenumberedRecord(atoms, order, avg, k.n - 1);
    }
  }

  /** Position by position, the renumbered atom holds `avg` more charge
      than the survivor it came from. */
  lemma ChargesShifted(atoms: map<Ref, Record>, order: seq<nat>, avg: real)
    requires Increasing(order) && Listed(atoms, order) && AdjustAlong(atoms, order, avg).1.None?
    ensures ShiftedBy(atoms, OldKeys(order), Renumbered(AdjustAlong(atoms, order, avg).0, order), NewKeys(|order|), avg)
  {
    forall i | 0 <= i < |order| {
      RenumberedRecord(atoms, order, avg, i);
    }
  }

  /** After a complete renumbering loop, the section's total is the
      survivors' total plus `avg` for each of them. */
  lemma RenumberedTotal(atoms: map<Ref, Record>, order: seq<nat>, avg: real)
    requires Increasing(order) && Listed(atoms, order) && AdjustAlong(atoms, order, avg).1.None?
    requires forall k :: k in atoms <==> k.Id? && k.n in order
    ensures Charged(atoms)
    ensures var after := Renumbered(AdjustAlong(atoms, order, avg).0, order);
      Charged(after) && Total(after) == Total(atoms) + Repeated(avg, |order|)
  {
    var after := Renumbered(AdjustAlong(atoms, order, avg).0, order);
    OldSide(atoms, order, avg);
    NewSide(atoms, order, avg);
    ChargesShifted(atoms, order, avg);
    ShiftedTotal(atoms, OldKeys(order), after, NewKeys(|order|), avg);
  }

  /** Before a normal return: every atom has a numeric charge (the listed
      ones because their charges were summed, the survivors because their
      charges were shifted) and every listed atom is present. */
  lemma ChargedBefore(t: Topology, names: seq<string>, atomNum: int)
    requires Transform(t, names, atomNum).1.Ok?
    ensures t.atoms.Some? && Charged(t.atoms.value)
    ensures forall i :: 0 <= i < |names| ==> RefOf(names[i]) in t.atoms.value
  {
    TransformSucceedsIff(t, names, atomNum);
    var atoms := t.atoms.value;
    var kept := Survivors(atoms, names);
    forall k | k in atoms ensures HasCharge(atoms[k]) {
      if k !in kept {
        var name :| name in names && RefOf(name) == k;
        var i :| 0 <= i < |names| && names[i] == name;
        assert ChargeOf(t.atoms, names[i]).Ok?;
      }
    }
    forall i | 0 <= i < |names| ensures RefOf(names[i]) in atoms {
      assert ChargeOf(t.atoms, names[i]).Ok?;
    }
  }

  /** After a normal return the atoms section holds the survivors' total
      charge plus `avg` for each survivor. */
  lemma ShiftedAfter(t: Topology, names: seq<string>, atomNum: int)
    requires Transform(t, names, atomNum).1.Ok?
    ensures var kept := Survivors(t.atoms.value, names);
      var after := Transform(t, names, atomNum).0.atoms;
      Charged(kept) && after.Some? && Charged(after.value) &&
      Total(after.value) == Total(kept) + Repeated(Spread(DeletedCharge(t.atoms, names).value, atomNum), |kept|)
  {
    Succeeded(t, names, atomNum);
    var kept := Survivors(t.atoms.value, names);
    var order := Ascending(IdsOf(kept));
    var avg := Spread(DeletedCharge(t.atoms, names).value, atomNum);
    AscendingSorts(IdsOf(kept));
    IdsCount(kept);
    forall k ensures k in kept <==> k.Id? && k.n in order {
      if k in kept {
        assert k.n in IdsOf(kept);
      }
    }
    RenumberedTotal(kept, order, avg);
  }

  /** The charge added to each survivor makes up for the deleted charge:
      with distinct ids to delete and `atom_num` equal to the number of
      survivors, a normal return leaves every atom with a numeric charge
      and the total charge of the atoms section unchanged. */
  lemma ChargeConserved(t: Topology, ids: seq<nat>, atomNum: int)
    requires Transform(t, NamesOf(ids), atomNum).1.Ok?
    requires forall i, j :: 0 <= i < j < |ids| ==> ids[i] != ids[j]
    requires t.atoms.Some? && atomNum == |t.atoms.value| - |ids|
    ensures Charged(t.atoms.value)
    ensures var after := Transform(t, NamesOf(ids), atomNum).0.atoms;
      after.Some? && Charged(after.value) && Total(after.value) == Total(t.atoms.value)
  {
    var names := NamesOf(ids);
    ChargedBefore(t, names, atomNum);
    assert DistinctPresent(t.atoms.value, names);
    TotalDeleted(t.atoms.value, names);
    ShiftedAfter(t, names, atomNum);
    RepeatedSpread(DeletedCharge(t.atoms, names).value, atomNum);
  }
}

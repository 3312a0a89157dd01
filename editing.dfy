/** `delete_atoms_and_renumber` as the editor runs it: the parsed topology is
    one mutable object whose sections the call updates in place, following
    the steps of `Deletion.Transform`. */
module Editing {
  import opened Outcomes
  import opened Itp
  import opened Deletion

  /** `itp_data`: the section dictionary the editor passes around. */
  class ItpData {
    var moleculetype: Option<map<string, string>>
    var atoms: Option<map<Ref, Record>>
    var bonds: Option<seq<Term>>
    var pairs: Option<seq<Term>>
    var angles: Option<seq<Term>>
    var dihedrals: Option<seq<Term>>
    var others: map<string, seq<string>>

    /** The sections as they stand. */
    function Snapshot(): Topology
      reads this
    {
      Topology(moleculetype, atoms, bonds, pairs, angles, dihedrals, others)
    }

    /** The dictionary `parse_itp_file` returns. */
    constructor (t: Topology)
      ensures Snapshot() == t
    {
      moleculetype := t.moleculetype;
      atoms := t.atoms;
      bonds := t.bonds;
      pairs := t.pairs;
      angles := t.angles;
      dihedrals := t.dihedrals;
      others := t.others;
    }

    /** Deletes the listed atoms, spreads their charge over `atomNum` atoms,
        renumbers the survivors 1..N in ascending order of their old ids and
        rewrites the bonded sections; returns `id_mapping` or the exception. */
    method DeleteAtomsAndRenumber(ids: seq<nat>, atomNum: int) returns (r: Result<map<nat, nat>>)
      modifies this
      ensures (Snapshot(), r) == Transform(old(Snapshot()), NamesOf(ids), atomNum)
    {
      var names := NamesOf(ids);
      var charge := SumDeletedCharge(atoms, names);
      if charge.Err? {
        return Err(charge.error);
      }
      if atomNum == 0 {
        return Err(ZeroDivisionError);
      }
      var avg := Spread(charge.value, atomNum);
      if atoms.None? {
        return Err(NameError);
      }

      DeleteListed(names);
      if !AllIds(atoms.value) {
        return Err(ValueError);
      }
      r := Renumber(avg);
      if r.Err? {
        return;
      }
      FilterBonded(names, r.value);
    }

    /** The `del` loop: the listed atoms leave the atoms section. */
    method DeleteListed(names: seq<string>)
      requires atoms.Some?
      modifies this
      ensures Snapshot() == old(Snapshot()).(atoms := Some(Survivors(old(atoms).value, names)))
    {
      ghost var before := atoms.value;
      assert Deleted(names[..0]) == {};
      assert Remove(before, {}) == before;
      for i := 0 to |names|
        invariant atoms == Some(Remove(before, Deleted(names[..i])))
        invariant Snapshot() == old(Snapshot()).(atoms := atoms)
      {
        var key := RefOf(names[i]);
        if key in atoms.value {
          atoms := Some(atoms.value - {key});
        } else {
          assert atoms.value - {key} == atoms.value;
        }
        RemoveStep(before, names, i);
      }
      assert names[..|names|] == names;
    }

    /** `sorted(atoms.items(), key=lambda x: int(x[0]))` and the renumbering
        loop. `table` is the atoms dictionary, whose records the loop updates
        and `new_atoms` shares, so a failure part-way leaves the earlier
        updates in the atoms section. */
    method Renumber(avg: real) returns (r: Result<map<nat, nat>>)
      requires atoms.Some? && AllIds(atoms.value)
      modifies this
      ensures var kept := old(atoms).value;
              var order := Ascending(IdsOf(kept));
              Increasing(order) && Listed(kept, order) &&
              var adjusted := AdjustAlong(kept, order, avg);
              if adjusted.1.Some? then
                Snapshot() == old(Snapshot()).(atoms := Some(adjusted.0)) && r == Err(adjusted.1.value)
              else
                Snapshot() == old(Snapshot()).(atoms := Some(Renumbered(adjusted.0, order))) && r == Ok(Mapping(order))
    {
      var order := Ascending(IdsOf(atoms.value));
      AscendingSorts(IdsOf(atoms.value));
      IdsOfListed(atoms.value);
      var table, newAtoms, mapping, failure := RenumberTable(atoms.value, order, avg);
      if failure.Some? {
        atoms := Some(table);
        return Err(failure.value);
      }
      atoms := Some(newAtoms);
      r := Ok(mapping);
    }

    /** Steps 2 to 5: each bonded section that is present is filtered. */
    method FilterBonded(names: seq<string>, mapping: map<nat, nat>)
      modifies this
      ensures Snapshot() == old(Snapshot()).(bonds := KeepSection(old(bonds), names, mapping),
                                             pairs := KeepSection(old(pairs), names, mapping),
                                             angles := KeepSection(old(angles), names, mapping),
                                             dihedrals := KeepSection(old(dihedrals), names, mapping))
    {
      if bonds.Some? {
        var kept := FilterTerms(bonds.value, names, mapping);
        bonds := Some(kept);
      }
      if pairs.Some? {
        var kept := FilterTerms(pairs.value, names, mapping);
        pairs := Some(kept);
      }
      if angles.Some? {
        var kept := FilterTerms(angles.value, names, mapping);
        angles := Some(kept);
      }
      if dihedrals.Some? {
        var kept := FilterTerms(dihedrals.value, names, mapping);
        dihedrals := Some(kept);
      }
    }
  }

  /** The renumbering loop over the atoms dictionary `table`, visiting the
      ids in `order`: the records are updated in place (`table` afterwards)
      and shared with `new_atoms`; `failure` is the exception that stopped
      the loop, if any. */
  method RenumberTable(atoms: map<Ref, Record>, order: seq<nat>, avg: real)
    returns (table: map<Ref, Record>, newAtoms: map<Ref, Record>, mapping: map<nat, nat>, failure: Option<Exception>)
    requires Increasing(order) && Listed(atoms, order)
    ensures (table, failure) == AdjustAlong(atoms, order, avg)
    ensures failure.None? ==> Listed(table, order) && newAtoms == Renumbered(table, order) && mapping == Mapping(order)
  {
    table := atoms;
    newAtoms := map[];
    mapping := map[];
    failure := None;
    assert Progress(atoms, order, avg, 0, table, newAtoms, mapping) by {
      assert order[..0] == [];
    }
    for j := 0 to |order|
      invariant Progress(atoms, order, avg, j, table, newAtoms, mapping)
    {
      ghost var cur, curNew := table, newAtoms;
      ProgressStep(atoms, order, avg, j, table, newAtoms, mapping);
      var key := Id(order[j]);
      var info := table[key];
      mapping := mapping[order[j] := j + 1];
      info := WithNr(info, j + 1);
      table := table[key := info];
      newAtoms := newAtoms[Id(j + 1) := info];
      var shifted := ShiftCharge(info, avg);
      if shifted.Err? {
        failure := Some(shifted.error);
        return;
      }
      Overwrite(cur, key, info, shifted.value);
      Overwrite(curNew, Id(j + 1), info, shifted.value);
      table := table[key := shifted.value];
      newAtoms := newAtoms[Id(j + 1) := shifted.value];
    }
    ProgressDone(atoms, order, avg, table, newAtoms, mapping);
  }

  /** A second store under the same key replaces the first. */
  lemma Overwrite<K, V>(m: map<K, V>, k: K, a: V, b: V)
    ensures m[k := a][k := b] == m[k := b]
  {
  }

  /** The `charge_delete` loop. */
  method SumDeletedCharge(atoms: Option<map<Ref, Record>>, names: seq<string>) returns (r: Result<real>)
    ensures r == DeletedCharge(atoms, names)
  {
    var total := 0.0;
    for i := 0 to |names|
      invariant DeletedCharge(atoms, names[..i]) == Ok(total)
    {
      assert names[..i + 1][..i] == names[..i];
      var c := ChargeOf(atoms, names[i]);
      if c.Err? {
        DeletedChargeStops(atoms, names, i + 1);
        return Err(c.error);
      }
      total := total + c.value;
    }
    assert names[..|names|] == names;
    return Ok(total);
  }

  /** The filtering loop of one bonded section: a term is skipped when one of
      its atoms is in the deletion list, and copied with its ids rewritten
      otherwise. */
  method FilterTerms(terms: seq<Term>, names: seq<string>, mapping: map<nat, nat>) returns (kept: seq<Term>)
    ensures kept == KeepTerms(terms, names, mapping)
  {
    kept := [];
    for i := 0 to |terms|
      invariant kept == KeepTerms(terms[..i], names, mapping)
    {
      assert terms[..i + 1][..i] == terms[..i];
      if !Mentions(terms[i], names) {
        kept := kept + [Rewrite(terms[i], mapping)];
      }
    }
    assert terms[..|terms|] == terms;
  }
}

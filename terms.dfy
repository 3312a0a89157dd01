/** What the filtering of the bonded sections promises: a term is dropped
    exactly when one of its atoms is in the deletion list, the kept terms
    stay in file order and are rewritten into the new numbering with their
    function code, parameters and comment unchanged, and when every
    reference named an existing atom, every kept reference names one of
    the renumbered atoms. */
module TermLaws {
  import opened Outcomes
  import opened Itp
  import opened Deletion
  import opened DeletionLaws

  /** The positions of the terms the filter keeps. */
  function KeptPositions(terms: seq<Term>, names: seq<string>): seq<nat> {
    if terms == [] then []
    else
      var n := |terms| - 1;
      KeptPositions(terms[..n], names) + if Mentions(terms[n], names) then [] else [n]
  }

  /** `kept` holds, in order, the rewritten terms at positions `pos`, and
      `pos` lists, in increasing order, exactly the positions of the terms
      that mention no deleted atom. */
  predicate Selects(terms: seq<Term>, names: seq<string>, mapping: map<nat, nat>, kept: seq<Term>, pos: seq<nat>) {
    |kept| == |pos| &&
    (forall i :: 0 <= i < |pos| ==>
      pos[i] < |terms| && !Mentions(terms[pos[i]], names) && kept[i] == Rewrite(terms[pos[i]], mapping)) &&
    (forall i, j :: 0 <= i < j < |pos| ==> pos[i] < pos[j]) &&
    (forall p :: 0 <= p < |terms| && !Mentions(terms[p], names) ==> p in pos)
  }

  /** One more term: kept and listed when it mentions no deleted atom. */
  lemma SelectsSnoc(terms: seq<Term>, names: seq<string>, mapping: map<nat, nat>, kept: seq<Term>, pos: seq<nat>, t: Term)
    requires Selects(terms, names, mapping, kept, pos)
    ensures var n := |terms|;
      Selects(terms + [t], names, mapping,
              kept + if Mentions(t, names) then [] else [Rewrite(t, mapping)],
              pos + if Mentions(t, names) then [] else [n])
  {
    var all := terms + [t];
    assert forall p :: 0 <= p < |terms| ==> all[p] == terms[p];
    assert all[|terms|] == t;
  }

  /** The filter keeps, in their original order, exactly the terms that
      mention no deleted atom, each rewritten through the mapping. */
  lemma {:induction false} KeepTermsSelects(terms: seq<Term>, names: seq<string>, mapping: map<nat, nat>)
    ensures Selects(terms, names, mapping, KeepTerms(terms, names, mapping), KeptPositions(terms, names))
  {
    if terms != [] {
      var n := |terms| - 1;
      var prefix := terms[..n];
      KeepTermsSelects(prefix, names, mapping);
      SelectsSnoc(prefix, names, mapping, KeepTerms(prefix, names, mapping), KeptPositions(prefix, names), terms[n]);
      assert prefix + [terms[n]] == terms;
    }
  }

  /** A term's references all name atoms of the section. */
  predicate Resolves(t: Term, atoms: map<Ref, Record>) {
    forall j :: 0 <= j < |t.refs| ==> t.refs[j] in atoms
  }

  /** Every term of a present section resolves. */
  predicate SectionResolves(section: Option<seq<Term>>, atoms: map<Ref, Record>) {
    section.Some? ==> forall i :: 0 <= i < |section.value| ==> Resolves(section.value[i], atoms)
  }

  /** A reference that is not deleted by text and names an atom names a survivor. */
  lemma SurvivingRef(atoms: map<Ref, Record>, names: seq<string>, r: Ref)
    requires r in atoms && RefText(r) !in names && WellFormedRef(r)
    ensures r in Survivors(atoms, names)
  {
    if r in Deleted(names) {
      var name :| name in names && RefOf(name) == r;
      RefTextOf(name);
      assert false;
    }
  }

  /** The survivors' ids are the mapping's keys, and their images are keys
      of the renumbered section. */
  predicate MapsInto(kept: map<Ref, Record>, mapping: map<nat, nat>, after: map<Ref, Record>) {
    forall r :: r in kept ==> r.Id? && r.n in mapping && Id(mapping[r.n]) in after
  }

  /** Terms that resolve against the old atoms resolve, once filtered and
      rewritten, against the renumbered ones. */
  lemma KeptTermsResolve(atoms: map<Ref, Record>, names: seq<string>, mapping: map<nat, nat>,
                         after: map<Ref, Record>, terms: seq<Term>)
    requires MapsInto(Survivors(atoms, names), mapping, after)
    requires forall i :: 0 <= i < |terms| ==> Resolves(terms[i], atoms)
    requires forall k :: k in atoms ==> WellFormedRef(k)
    ensures forall i :: 0 <= i < |KeepTerms(terms, names, mapping)| ==>
      Resolves(KeepTerms(terms, names, mapping)[i], after)
  {
    var kept := KeepTerms(terms, names, mapping);
    var pos := KeptPositions(terms, names);
    KeepTermsSelects(terms, names, mapping);
    forall i | 0 <= i < |kept| ensures Resolves(kept[i], after) {
      var source := terms[pos[i]];
      forall j | 0 <= j < |kept[i].refs| ensures kept[i].refs[j] in after {
        var r := source.refs[j];
        assert RefText(r) !in names;
        SurvivingRef(atoms, names, r);
      }
    }
  }

  /** After a normal return the survivors map into the renumbered section. */
  lemma SurvivorsMapped(t: Topology, names: seq<string>, atomNum: int)
    requires Transform(t, names, atomNum).1.Ok?
    ensures var r := Transform(t, names, atomNum);
      t.atoms.Some? && r.0.atoms.Some? && MapsInto(Survivors(t.atoms.value, names), r.1.value, r.0.atoms.value)
  {
    MappingOrder(t, names, atomNum);
    RenumberedKeys(t, names, atomNum);
    Succeeded(t, names, atomNum);
    var kept := Survivors(t.atoms.value, names);
    forall r | r in kept ensures r.n in IdsOf(kept) {
    }
  }

  /** Referential integrity: when every reference of every bonded term
      names an existing atom, after a normal return every reference of
      every kept term names an atom of the renumbered section, that is, an
      id between 1 and the number of survivors. */
  lemma BondedIntegrity(t: Topology, names: seq<string>, atomNum: int)
    requires Transform(t, names, atomNum).1.Ok?
    requires t.atoms.Some? && forall k :: k in t.atoms.value ==> WellFormedRef(k)
    requires SectionResolves(t.bonds, t.atoms.value) && SectionResolves(t.pairs, t.atoms.value)
    requires SectionResolves(t.angles, t.atoms.value) && SectionResolves(t.dihedrals, t.atoms.value)
    ensures var after := Transform(t, names, atomNum).0;
      after.atoms.Some? &&
      SectionResolves(after.bonds, after.atoms.value) && SectionResolves(after.pairs, after.atoms.value) &&
      SectionResolves(after.angles, after.atoms.value) && SectionResolves(after.dihedrals, after.atoms.value)
  {
    SurvivorsMapped(t, names, atomNum);
    Succeeded(t, names, atomNum);
    var r := Transform(t, names, atomNum);
    var atoms := t.atoms.value;
    var mapping := r.1.value;
    var after := r.0.atoms.value;
    assert r.0.bonds == KeepSection(t.bonds, names, mapping);
    assert r.0.pairs == KeepSection(t.pairs, names, mapping);
    assert r.0.angles == KeepSection(t.angles, names, mapping);
    assert r.0.dihedrals == KeepSection(t.dihedrals, names, mapping);
    if t.bonds.Some? {
      KeptTermsResolve(atoms, names, mapping, after, t.bonds.value);
    }
    if t.pairs.Some? {
      KeptTermsResolve(atoms, names, mapping, after, t.pairs.value);
    }
    if t.angles.Some? {
      KeptTermsResolve(atoms, names, mapping, after, t.angles.value);
    }
    if t.dihedrals.Some? {
      KeptTermsResolve(atoms, names, mapping, after, t.dihedrals.value);
    }
  }
}

/** The last-known-good state: one record per directory and group, overwritten by each successful save. */
module Store {
  import opened Wrappers
  import opened Prefixes
  import opened Sequences
  import opened Aggregation
  import opened Normalization

  /** What LoadGroup rebuilds from a saved list: the entries that parse, masked. */
  function Loaded(ps: seq<Prefix>): seq<Prefix> {
    Mapped(Filter(ps, IsValid), MaskedOrSame)
  }

  datatype RecordKey = RecordKey(dir: string, group: string)

  type Records = map<RecordKey, seq<Prefix>>

  /** All state directories; state.New only names the one a call works in. */
  class GroupStore {
    var saved: Records
    ghost var saves: seq<(RecordKey, seq<Prefix>)>  // what was asked to be saved, in order
    ghost var failures: nat                         // how many accesses have failed

    method SaveGroup(dir: string, group: string, prefixes: seq<Prefix>) returns (ok: bool)
      modifies this
      ensures saved == if ok then old(saved)[RecordKey(dir, group) := prefixes] else old(saved)
      ensures saves == old(saves) + [(RecordKey(dir, group), prefixes)]
      ensures failures == old(failures) + if ok then 0 else 1
    {
      ok := *;
      saves := saves + [(RecordKey(dir, group), prefixes)];
      if ok { saved := saved[RecordKey(dir, group) := prefixes]; } else { failures := failures + 1; }
    }

    method LoadGroup(dir: string, group: string) returns (out: Option<seq<Prefix>>)
      modifies this`failures
      ensures failures == old(failures) || (failures == old(failures) + 1 && out == None)
      ensures out.Some? ==> RecordKey(dir, group) in saved && out.value == Loaded(saved[RecordKey(dir, group)])
      ensures out == None ==> RecordKey(dir, group) !in saved || failures == old(failures) + 1
    {
      var readable: bool := *;
      if RecordKey(dir, group) !in saved { return None; }
      if !readable {
        failures := failures + 1;
        return None;
      }
      var record := saved[RecordKey(dir, group)];
      var prefixes: seq<Prefix> := [];
      for i := 0 to |record|
        invariant prefixes == Loaded(record[..i]) && failures == old(failures)
      {
        LoadedStep(record, i);
        if IsValid(record[i]) { prefixes := prefixes + [Masked(record[i])]; }
      }
      assert record[..|record|] == record;
      return Some(prefixes);
    }
  }

  lemma LoadedStep(ps: seq<Prefix>, i: nat)
    requires i < |ps|
    ensures Loaded(ps[..i + 1]) == Loaded(ps[..i]) + if IsValid(ps[i]) then [Masked(ps[i])] else []
  {
    FilterStep(ps, i, IsValid);
    if IsValid(ps[i]) {
      var kept := Filter(ps[..i], IsValid) + [ps[i]];
      MappedLast(kept, MaskedOrSame);
      assert kept[..|kept| - 1] == Filter(ps[..i], IsValid);
    }
  }

  lemma LoadedBlocks(ps: seq<Prefix>)
    requires AllBlocks(ps)
    ensures Loaded(ps) == ps
  {
    FilterAll(ps, IsValid);
    forall i | 0 <= i < |ps| ensures MaskedOrSame(ps[i]) == ps[i] {
      assert IsBlock(ps[i]);
    }
  }

  /** A fallback to the saved form of a fetch plans with that fetch normalized under the current
      flag, or still aggregated when the save was. */
  lemma FallbackPrefixes(fetched: seq<Prefix>, before: bool, now: bool)
    ensures Normalized(Loaded(Normalized(fetched, before)), now) == Normalized(fetched, before || now)
  {
    NormalizedMeaning(fetched, before);
    LoadedBlocks(Normalized(fetched, before));
    Renormalized(fetched, before, now);
  }

  /** So it agrees with normalizing the fetch under the current flag unless aggregation has been
      switched off since the save and had merged or dropped something. */
  lemma FallbackAgreesExactly(fetched: seq<Prefix>, before: bool, now: bool)
    ensures Normalized(Loaded(Normalized(fetched, before)), now) == Normalized(fetched, now) <==>
            !before || now || forall p, q :: MaskedIn(p, fetched) && MaskedIn(q, fetched) && p != q ==>
                                !Siblings(p, q) && !Covers(p, q)
  {
    FallbackPrefixes(fetched, before, now);
    AggregationIsIdentity(fetched);
  }

  /** The exception is real for any list with a sibling pair: once saved aggregated, it stays merged. */
  lemma SwitchedOffStaysMerged(fetched: seq<Prefix>, p: Prefix, q: Prefix)
    requires p in fetched && q in fetched && Siblings(p, q)
    ensures Normalized(Loaded(Normalized(fetched, true)), false) != Normalized(fetched, false)
  {
    assert Masked(p) == p && Masked(q) == q;
    assert MaskedIn(p, fetched) && MaskedIn(q, fetched);
    FallbackAgreesExactly(fetched, true, false);
  }
}

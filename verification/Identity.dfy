/** Record IDs (pkg/yeoul/id.go): generated numbers, the revision order recovered
    from them, and the order that decides which revision of a record is newest. */
module Identity {
  import opened Wrappers
  import opened Text

  const FACT_REVISION_PREFIX := "factrev"
  const ENTITY_REVISION_PREFIX := "entityrev"

  /** fmt.Sprintf("%s_%06d", prefix, n) */
  function IdText(prefix: string, n: nat): string {
    prefix + "_" + Pad6(n)
  }

  function NumberAfter(prefix: string, id: string): nat
    requires prefix <= id
  {
    ParseUint(id[|prefix|..]).GetOr(0)
  }

  /** revisionOrder: the engine sequence number embedded in a generated revision
      ID, and zero for every other ID. */
  function RevisionOrder(id: string): nat {
    if FACT_REVISION_PREFIX + "_" <= id then NumberAfter(FACT_REVISION_PREFIX + "_", id)
    else if ENTITY_REVISION_PREFIX + "_" <= id then NumberAfter(ENTITY_REVISION_PREFIX + "_", id)
    else 0
  }

  lemma NumberRecovered(prefix: string, n: nat)
    ensures prefix + "_" <= IdText(prefix, n)
    ensures NumberAfter(prefix + "_", IdText(prefix, n)) == n
  {
    assert IdText(prefix, n)[|prefix + "_"|..] == Pad6(n);
    Pad6RoundTrip(n);
  }

  lemma IdTextInjective(prefix: string, m: nat, n: nat)
    requires IdText(prefix, m) == IdText(prefix, n)
    ensures m == n
  {
    NumberRecovered(prefix, m);
    NumberRecovered(prefix, n);
  }

  /** The embedded number survives the digit boundary: 999999 and 1000000 are
      rendered with different widths, and still read back as themselves. */
  lemma RevisionOrderRecovered(n: nat)
    ensures RevisionOrder(IdText(FACT_REVISION_PREFIX, n)) == n
    ensures RevisionOrder(IdText(ENTITY_REVISION_PREFIX, n)) == n
  {
    NumberRecovered(FACT_REVISION_PREFIX, n);
    NumberRecovered(ENTITY_REVISION_PREFIX, n);
    assert IdText(ENTITY_REVISION_PREFIX, n)[0] == 'e';
  }

  /** revisionComesAfter: transaction time, then recovered order, then raw ID. */
  predicate ComesAfter(id: string, tx: int, otherId: string, otherTx: int) {
    if tx != otherTx then tx > otherTx
    else if RevisionOrder(id) != RevisionOrder(otherId) then RevisionOrder(id) > RevisionOrder(otherId)
    else Less(otherId, id)
  }

  /** revisionComesAfter is a strict total order on revisions with distinct IDs,
      which is what makes "the newest revision" well defined. */
  lemma ComesAfterIsStrictTotal(a: string, ta: int, b: string, tb: int, c: string, tc: int)
    ensures !ComesAfter(a, ta, a, ta)
    ensures ComesAfter(a, ta, b, tb) && ComesAfter(b, tb, c, tc) ==> ComesAfter(a, ta, c, tc)
    ensures a != b ==> ComesAfter(a, ta, b, tb) || ComesAfter(b, tb, a, ta)
    ensures !(ComesAfter(a, ta, b, tb) && ComesAfter(b, tb, a, ta))
  {
    LessIrreflexive(a);
    LessTotal(a, b);
    if Less(b, a) && Less(c, b) {
      LessTransitive(c, b, a);
    }
    if Less(a, b) && Less(b, a) {
      LessTransitive(a, b, a);
    }
  }

  // ----- the newest revision of a log -----

  /** A log is a map from revision ID to transaction time. `newest` is the ID that
      comes after every other one. */
  predicate IsNewest(log: map<string, int>, newest: string) {
    newest in log &&
    forall other :: other in log && other != newest ==> ComesAfter(newest, log[newest], other, log[other])
  }

  lemma NewestExists(log: map<string, int>) returns (newest: string)
    requires log.Keys != {}
    ensures IsNewest(log, newest)
    decreases log.Keys
  {
    var pick :| pick in log.Keys;
    var rest := log - {pick};
    if rest.Keys == {} {
      newest := pick;
      assert forall other :: other in log && other != pick ==> other in rest;
    } else {
      assert rest.Keys < log.Keys;
      var best := NewestExists(rest);
      newest := if ComesAfter(pick, log[pick], best, log[best]) then pick else best;
      forall other | other in log && other != newest
        ensures ComesAfter(newest, log[newest], other, log[other])
      {
        ComesAfterIsStrictTotal(pick, log[pick], best, log[best], other, log[other]);
        ComesAfterIsStrictTotal(best, log[best], pick, log[pick], other, log[other]);
        assert other == pick || other in rest;
      }
    }
  }

  lemma NewestUnique(log: map<string, int>, a: string, b: string)
    requires IsNewest(log, a) && IsNewest(log, b)
    ensures a == b
  {
    ComesAfterIsStrictTotal(a, log[a], b, log[b], a, log[a]);
  }

  /** The naive answer to "which revision is newest": the maximum of the log. */
  ghost function Newest(log: map<string, int>): (r: Option<string>)
    ensures r.None? <==> log.Keys == {}
    ensures r.Some? ==> IsNewest(log, r.value)
  {
    if log.Keys == {} then None
    else
      assert exists id :: IsNewest(log, id) by { var id := NewestExists(log); }
      var id :| IsNewest(log, id);
      Some(id)
  }

  // ----- generated IDs -----

  /** The taken IDs that carry this prefix and a number above `sequence`: the
      finite obstacle course of newIDLocked. */
  function TakenAbove(taken: set<string>, prefix: string, sequence: nat): set<string> {
    set id | id in taken && prefix + "_" <= id && NumberAfter(prefix + "_", id) > sequence
  }

  /** The number newIDLocked settles on: the first one above the sequence whose ID
      no record of any kind holds. */
  function NextFree(taken: set<string>, prefix: string, sequence: nat): (n: nat)
    ensures n > sequence && IdText(prefix, n) !in taken
    ensures forall m :: sequence < m < n ==> IdText(prefix, m) in taken
    decreases |TakenAbove(taken, prefix, sequence)|
  {
    var id := IdText(prefix, sequence + 1);
    if id !in taken then sequence + 1
    else
      TakenAboveShrinks(taken, prefix, sequence);
      NextFree(taken, prefix, sequence + 1)
  }

  lemma TakenAboveShrinks(taken: set<string>, prefix: string, sequence: nat)
    requires IdText(prefix, sequence + 1) in taken
    ensures |TakenAbove(taken, prefix, sequence + 1)| < |TakenAbove(taken, prefix, sequence)|
  {
    var id := IdText(prefix, sequence + 1);
    NumberRecovered(prefix, sequence + 1);
    var big, small := TakenAbove(taken, prefix, sequence), TakenAbove(taken, prefix, sequence + 1);
    assert id in big && id !in small;
    assert small <= big - {id};
    SubsetSize(small, big - {id});
  }

  lemma {:induction false} SubsetSize<T>(a: set<T>, b: set<T>)
    requires a <= b
    ensures |a| <= |b|
  {
    if a != {} {
      var x :| x in a;
      SubsetSize(a - {x}, b - {x});
    }
  }
}

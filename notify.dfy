/** What one fan-out over a listener map delivers: every registered listener is invoked
    exactly once with the same payload, in the map's (unspecified) order. */
module Notify {
  import opened Common

  ghost function ListenersOf(sent: seq<Notification>): set<Uuid> {
    set i | 0 <= i < |sent| :: sent[i].listener
  }

  ghost predicate DistinctListeners(sent: seq<Notification>) {
    forall i, j :: 0 <= i < j < |sent| ==> sent[i].listener != sent[j].listener
  }

  /** `sent` is one delivery of `p` to every listener in `ids`, each exactly once. */
  ghost predicate FanOut(ids: set<Uuid>, p: Payload, sent: seq<Notification>) {
    && (forall i :: 0 <= i < |sent| ==> sent[i].payload == p)
    && DistinctListeners(sent)
    && ListenersOf(sent) == ids
  }

  /** `sent` is a fan-out to `ids` of each payload of `ps`, one after the other. */
  ghost predicate FanOuts(ids: set<Uuid>, ps: seq<Payload>, sent: seq<Notification>)
    decreases |ps|
  {
    if ps == [] then sent == []
    else |ids| <= |sent| && FanOut(ids, ps[0], sent[..|ids|]) && FanOuts(ids, ps[1..], sent[|ids|..])
  }

  /** How many times `id` was invoked in `sent`. */
  function Deliveries(sent: seq<Notification>, id: Uuid): nat
  {
    if sent == [] then 0
    else (if sent[0].listener == id then 1 else 0) + Deliveries(sent[1..], id)
  }

  lemma ListenersOfAppend(sent: seq<Notification>, n: Notification)
    ensures ListenersOf(sent + [n]) == ListenersOf(sent) + {n.listener}
  {
    var s := sent + [n];
    assert s[|sent|] == n;
    forall id | id in ListenersOf(s) ensures id in ListenersOf(sent) + {n.listener} {
      var i :| 0 <= i < |s| && s[i].listener == id;
      if i < |sent| { assert sent[i] == s[i]; }
    }
    forall id | id in ListenersOf(sent) ensures id in ListenersOf(s) {
      var i :| 0 <= i < |sent| && sent[i].listener == id;
      assert s[i] == sent[i];
    }
  }

  /** Adding one delivery to a listener not yet reached keeps the fan-out shape. */
  lemma FanOutExtend(ids: set<Uuid>, p: Payload, sent: seq<Notification>, id: Uuid)
    requires FanOut(ids, p, sent) && id !in ids
    ensures FanOut(ids + {id}, p, sent + [Notification(id, p)])
  {
    ListenersOfAppend(sent, Notification(id, p));
    var s := sent + [Notification(id, p)];
    forall i, j | 0 <= i < j < |s| ensures s[i].listener != s[j].listener {
      if j == |sent| {
        assert s[i].listener in ListenersOf(sent);
      }
    }
  }

  lemma FanOutNone(p: Payload)
    ensures FanOut({}, p, [])
  {
  }

  /** A fan-out makes one call per registered listener; with no listeners it makes none. */
  lemma FanOutSize(ids: set<Uuid>, p: Payload, sent: seq<Notification>)
    requires FanOut(ids, p, sent)
    ensures |sent| == |ids|
    ensures ids == {} ==> sent == []
  {
    var ls := seq(|sent|, i requires 0 <= i < |sent| => sent[i].listener);
    assert Distinct(ls);
    DistinctCardinality(ls);
    forall x | x in ListenersOf(sent) ensures x in ls {
      var i :| 0 <= i < |sent| && sent[i].listener == x;
      assert ls[i] == x;
    }
    assert (set x | x in ls) == ListenersOf(sent);
  }

  lemma {:induction false} DeliveriesDistinct(sent: seq<Notification>, id: Uuid)
    requires DistinctListeners(sent)
    ensures Deliveries(sent, id) == if id in ListenersOf(sent) then 1 else 0
  {
    if sent != [] {
      var rest := sent[1..];
      assert DistinctListeners(rest) by {
        forall i, j | 0 <= i < j < |rest| ensures rest[i].listener != rest[j].listener {
          assert rest[i] == sent[i + 1] && rest[j] == sent[j + 1];
        }
      }
      DeliveriesDistinct(rest, id);
      assert ListenersOf(sent) == {sent[0].listener} + ListenersOf(rest) by {
        forall x | x in ListenersOf(sent) ensures x in {sent[0].listener} + ListenersOf(rest) {
          var i :| 0 <= i < |sent| && sent[i].listener == x;
          if i > 0 { assert rest[i - 1] == sent[i]; }
        }
        forall x | x in ListenersOf(rest) ensures x in ListenersOf(sent) {
          var i :| 0 <= i < |rest| && rest[i].listener == x;
          assert sent[i + 1] == rest[i];
        }
      }
      if sent[0].listener == id {
        forall i | 0 <= i < |rest| ensures rest[i].listener != id {
          assert rest[i] == sent[i + 1];
        }
      }
    }
  }

  /** Exactly once: a registered listener is invoked once, any other id never. */
  lemma FanOutExactlyOnce(ids: set<Uuid>, p: Payload, sent: seq<Notification>, id: Uuid)
    requires FanOut(ids, p, sent)
    ensures Deliveries(sent, id) == if id in ids then 1 else 0
  {
    DeliveriesDistinct(sent, id);
  }

  /** One fan-out is a sequence of one fan-out. */
  lemma FanOutsSingle(ids: set<Uuid>, p: Payload, sent: seq<Notification>)
    requires FanOut(ids, p, sent)
    ensures FanOuts(ids, [p], sent)
  {
    FanOutSize(ids, p, sent);
    assert sent[..|ids|] == sent;
    assert [p][1..] == [];
  }

  /** Two sequences of fan-outs to the same listeners, one after the other. */
  lemma {:induction false} FanOutsConcat(ids: set<Uuid>, ps: seq<Payload>, sent: seq<Notification>,
                                         qs: seq<Payload>, more: seq<Notification>)
    requires FanOuts(ids, ps, sent) && FanOuts(ids, qs, more)
    ensures FanOuts(ids, ps + qs, sent + more)
    decreases |ps|
  {
    if ps == [] {
      assert ps + qs == qs;
      assert sent + more == more;
    } else {
      var n := |ids|;
      assert (ps + qs)[0] == ps[0];
      assert (ps + qs)[1..] == ps[1..] + qs;
      assert (sent + more)[..n] == sent[..n];
      assert (sent + more)[n..] == sent[n..] + more;
      FanOutsConcat(ids, ps[1..], sent[n..], qs, more);
    }
  }

  /** Two fan-outs to the same listeners, one after the other. */
  lemma FanOutsPair(ids: set<Uuid>, p: Payload, sent: seq<Notification>, q: Payload, more: seq<Notification>)
    requires FanOut(ids, p, sent) && FanOut(ids, q, more)
    ensures FanOuts(ids, [p, q], sent + more)
  {
    FanOutsSingle(ids, p, sent);
    FanOutsSingle(ids, q, more);
    FanOutsConcat(ids, [p], sent, [q], more);
    assert [p] + [q] == [p, q];
  }
}

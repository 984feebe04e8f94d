/** De-duplication of pushes on the receiver: an in-flight set and a bounded window of completed ids. */
module PushLedger {

  /** How many completed ids are remembered, and how many may be in flight. */
  const WINDOW: nat := 100000

  datatype Ledger = Ledger(inflight: set<string>, recent: set<string>, order: seq<string>)

  /** `Busy` is the retryable exception raised for an id that another handler is working on. */
  datatype Verdict = Accepted | Duplicate | Busy

  function Accept(d: Ledger, id: string): (Ledger, Verdict) {
    if id == "" then (d, Accepted)
    else if id in d.recent then (d, Duplicate)
    else if id in d.inflight || |d.inflight| >= WINDOW then (d, Busy)
    else (d.(inflight := d.inflight + {id}), Accepted)
  }

  function Evict(d: Ledger): Ledger
    decreases |d.order|
  {
    if |d.order| <= WINDOW then d
    else Evict(d.(recent := d.recent - {d.order[0]}, order := d.order[1..]))
  }

  function Complete(d: Ledger, id: string): Ledger {
    if id == "" then d
    else Evict(Ledger(d.inflight - {id}, d.recent + {id}, d.order + [id]))
  }

  function Forget(d: Ledger, id: string): Ledger {
    d.(inflight := d.inflight - {id})
  }

  predicate NoRepeats(xs: seq<string>) {
    forall i, j | 0 <= i < j < |xs| :: xs[i] != xs[j]
  }

  ghost predicate Valid(d: Ledger) {
    && (forall id :: id in d.recent <==> id in d.order)
    && NoRepeats(d.order) && |d.order| <= WINDOW
    && d.inflight !! d.recent && "" !in d.inflight && "" !in d.recent
  }

  function Last(xs: seq<string>, n: nat): seq<string> {
    if |xs| <= n then xs else xs[|xs| - n..]
  }

  /** Completing an id keeps the ledger exact: the window is the last WINDOW completed ids, the oldest
      one leaves, and the id is no longer in flight. */
  lemma CompleteKeepsWindow(d: Ledger, id: string)
    requires Valid(d) && id in d.inflight
    ensures Valid(Complete(d, id))
    ensures Complete(d, id).order == Last(d.order + [id], WINDOW)
    ensures Complete(d, id).inflight == d.inflight - {id} && id in Complete(d, id).recent
  {
    var full := Ledger(d.inflight - {id}, d.recent + {id}, d.order + [id]);
    assert id !in d.order;
    if |full.order| > WINDOW {
      var cut := full.(recent := full.recent - {full.order[0]}, order := full.order[1..]);
      assert Evict(full) == Evict(cut) == cut;
      forall x ensures x in cut.recent <==> x in cut.order {
        if x in cut.recent {
          assert x in d.order || x == id;
          assert full.order[|d.order|] == id && full.order[..|d.order|] == d.order;
          assert x in full.order;
          var i :| 0 <= i < |full.order| && full.order[i] == x;
          assert cut.order[i - 1] == x;
        }
      }
      assert cut.order[|cut.order| - 1] == id;
    } else {
      assert full.order[|full.order| - 1] == id;
    }
  }

  lemma AcceptKeepsValid(d: Ledger, id: string)
    requires Valid(d)
    ensures Valid(Accept(d, id).0) && Accept(d, id).0.order == d.order
    ensures Accept(d, id).1 == Accepted && id != "" ==>
              id !in d.inflight && id !in d.order && Accept(d, id).0.inflight == d.inflight + {id}
    ensures Accept(d, id).1 == Duplicate <==> id != "" && id in d.order
    ensures Accept(d, id).1 == Accepted <==>
              id == "" || (id !in d.order && id !in d.inflight && |d.inflight| < 100000)
    ensures Accept(d, id).1 != Accepted || id == "" ==> Accept(d, id).0 == d
  {
  }

  class PushRequests {
    var inflight: set<string>
    var recent: set<string>
    var order: seq<string>

    constructor ()
      ensures View() == Ledger({}, {}, [])
    {
      inflight, recent, order := {}, {}, [];
    }

    function View(): Ledger
      reads this
    {
      Ledger(inflight, recent, order)
    }

    method AcceptPushRequest(id: string) returns (verdict: Verdict)
      modifies this
      ensures (View(), verdict) == Accept(old(View()), id)
    {
      if id == "" { return Accepted; }
      if id in recent { return Duplicate; }
      if id in inflight || |inflight| >= WINDOW { return Busy; }
      inflight := inflight + {id};
      return Accepted;
    }

    method CompletePushRequest(id: string)
      modifies this
      ensures View() == Complete(old(View()), id)
    {
      if id == "" { return; }
      inflight := inflight - {id};
      recent := recent + {id};
      order := order + [id];
      while |order| > WINDOW
        invariant Evict(View()) == Complete(old(View()), id)
      {
        recent := recent - {order[0]};
        order := order[1..];
      }
    }

    method ForgetPushRequest(id: string)
      modifies this
      ensures View() == Forget(old(View()), id)
    {
      inflight := inflight - {id};
    }
  }
}

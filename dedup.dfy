/**
 * The "already sent" record both reminder evaluators keep: a grow-only set
 * of keys that both suppresses and records sends, and the outbound
 * notification channel whose outcome the evaluators ignore.
 *
 * `Fire` is the specification of one evaluation pass: the candidate
 * reminders are considered in order, each one is sent iff its key is not
 * yet recorded, and its key is recorded right after the send.
 */
module Dedup {

  /** A reminder the rules ask for: its dedup key and the message to send. */
  datatype Dispatch<K, M> = Dispatch(key: K, message: M)

  /** What a pass leaves behind: the dispatches actually sent, and the key record. */
  datatype Outcome<K, M> = Outcome(fired: seq<Dispatch<K, M>>, sent: set<K>)

  ghost function KeySet<K, M>(ds: seq<Dispatch<K, M>>): set<K>
  {
    set d | d in ds :: d.key
  }

  ghost function FiredKeys<K, M>(o: Outcome<K, M>): set<K>
  {
    KeySet(o.fired)
  }

  /** The messages of a list of dispatches, in order. */
  function Messages<K, M>(ds: seq<Dispatch<K, M>>): seq<M>
  {
    if ds == [] then [] else Messages(ds[..|ds| - 1]) + [ds[|ds| - 1].message]
  }

  /** Consider one candidate: send and record it unless its key is recorded. */
  function Step<K, M>(o: Outcome<K, M>, c: Dispatch<K, M>): Outcome<K, M>
  {
    if c.key in o.sent then o else Outcome(o.fired + [c], o.sent + {c.key})
  }

  /** One pass over the candidates, in order, against the record `sent`. */
  function Fire<K, M>(cands: seq<Dispatch<K, M>>, sent: set<K>): Outcome<K, M>
  {
    if cands == [] then Outcome([], sent) else Step(Fire(cands[..|cands| - 1], sent), cands[|cands| - 1])
  }

  lemma KeySetAppend<K, M>(a: seq<Dispatch<K, M>>, b: seq<Dispatch<K, M>>)
    ensures KeySet(a + b) == KeySet(a) + KeySet(b)
  {
    forall k | k in KeySet(a + b) ensures k in KeySet(a) + KeySet(b) {
      var d :| d in a + b && d.key == k;
    }
    forall k | k in KeySet(a) + KeySet(b) ensures k in KeySet(a + b) {
      if k in KeySet(a) {
        var d :| d in a && d.key == k;
        assert d in a + b;
      } else {
        var d :| d in b && d.key == k;
        assert d in a + b;
      }
    }
  }

  lemma KeySetSnoc<K, M>(a: seq<Dispatch<K, M>>)
    requires a != []
    ensures KeySet(a) == KeySet(a[..|a| - 1]) + {a[|a| - 1].key}
  {
    assert a == a[..|a| - 1] + [a[|a| - 1]];
    KeySetAppend(a[..|a| - 1], [a[|a| - 1]]);
    assert KeySet([a[|a| - 1]]) == {a[|a| - 1].key};
  }

  lemma KeySetEmpty<K, M>(ds: seq<Dispatch<K, M>>)
    ensures KeySet(ds) == {} <==> ds == []
  {
    if ds != [] {
      assert ds[0] in ds;
      assert ds[0].key in KeySet(ds);
    }
  }

  /** Appending one dispatch appends its message. */
  lemma MessagesSnoc<K, M>(ds: seq<Dispatch<K, M>>, d: Dispatch<K, M>)
    ensures Messages(ds + [d]) == Messages(ds) + [d.message]
  {
    assert (ds + [d])[..|ds + [d]| - 1] == ds;
  }

  /** Considering one more candidate is one more `Step`. */
  lemma FireSnoc<K, M>(cands: seq<Dispatch<K, M>>, c: Dispatch<K, M>, sent: set<K>)
    ensures Fire(cands + [c], sent) == Step(Fire(cands, sent), c)
  {
    assert (cands + [c])[..|cands + [c]| - 1] == cands;
  }

  /** The record after a pass is the record before plus every candidate's key: keys are never removed. */
  lemma {:induction false} FireRecords<K, M>(cands: seq<Dispatch<K, M>>, sent: set<K>)
    ensures Fire(cands, sent).sent == sent + KeySet(cands)
    decreases |cands|
  {
    if cands != [] {
      FireRecords(cands[..|cands| - 1], sent);
      KeySetSnoc(cands);
    }
  }

  /**
   * A key is sent in a pass iff some candidate carries it and it was not
   * recorded before the pass.
   */
  lemma {:induction false} FiredKeysExactly<K, M>(cands: seq<Dispatch<K, M>>, sent: set<K>)
    ensures FiredKeys(Fire(cands, sent)) == KeySet(cands) - sent
    decreases |cands|
  {
    if cands != [] {
      var init, c := cands[..|cands| - 1], cands[|cands| - 1];
      var prev := Fire(init, sent);
      FiredKeysExactly(init, sent);
      FireRecords(init, sent);
      KeySetSnoc(cands);
      if c.key !in prev.sent {
        KeySetAppend(prev.fired, [c]);
        assert KeySet([c]) == {c.key};
      }
    }
  }

  /**
   * At most once: no sent key was recorded before the pass, and no key is
   * sent twice within the pass.
   */
  lemma {:induction false} FiredOnce<K, M>(cands: seq<Dispatch<K, M>>, sent: set<K>)
    ensures forall i | 0 <= i < |Fire(cands, sent).fired| :: Fire(cands, sent).fired[i].key !in sent
    ensures forall i, j | 0 <= i < j < |Fire(cands, sent).fired| ::
              Fire(cands, sent).fired[i].key != Fire(cands, sent).fired[j].key
    decreases |cands|
  {
    if cands != [] {
      var init, c := cands[..|cands| - 1], cands[|cands| - 1];
      var prev := Fire(init, sent);
      FiredOnce(init, sent);
      FireRecords(init, sent);
      FiredKeysExactly(init, sent);
      if c.key !in prev.sent {
        var fired := prev.fired + [c];
        forall i | 0 <= i < |prev.fired| ensures fired[i].key != c.key {
          assert prev.fired[i] in prev.fired;
          assert prev.fired[i].key in FiredKeys(prev);
        }
      }
    }
  }

  /** Every dispatch sent is one of the candidates, so nothing is sent that no rule asked for. */
  lemma {:induction false} FiredAreCandidates<K, M>(cands: seq<Dispatch<K, M>>, sent: set<K>)
    ensures forall d | d in Fire(cands, sent).fired :: d in cands
    decreases |cands|
  {
    if cands != [] {
      FiredAreCandidates(cands[..|cands| - 1], sent);
      forall d | d in cands[..|cands| - 1] ensures d in cands {
        var i :| 0 <= i < |cands| - 1 && cands[..|cands| - 1][i] == d;
        assert cands[i] == d;
      }
    }
  }

  /** Running the same pass again against the record it left sends nothing. */
  lemma SecondPassSilent<K, M>(cands: seq<Dispatch<K, M>>, sent: set<K>)
    ensures Fire(cands, Fire(cands, sent).sent).fired == []
  {
    var s1 := Fire(cands, sent).sent;
    FireRecords(cands, sent);
    FiredKeysExactly(cands, s1);
    KeySetEmpty(Fire(cands, s1).fired);
  }

  /**
   * Across passes sharing one record, a key sent by the first pass is never
   * sent by the second, whatever the second pass's candidates are.
   */
  lemma NeverSentTwice<K, M>(c1: seq<Dispatch<K, M>>, c2: seq<Dispatch<K, M>>, sent: set<K>)
    ensures FiredKeys(Fire(c1, sent)) !! FiredKeys(Fire(c2, Fire(c1, sent).sent))
  {
    FireRecords(c1, sent);
    FiredKeysExactly(c1, sent);
    FiredKeysExactly(c2, Fire(c1, sent).sent);
  }

  /** The notification channel: every attempted message is appended to `outbox`. */
  class Channel<M> {
    /** Whether the bot token and chat id are configured. */
    const configured: bool
    var outbox: seq<M>

    constructor (configured: bool)
      ensures this.configured == configured && outbox == []
    {
      this.configured := configured;
      outbox := [];
    }

    /**
     * Attempts to deliver `m`. Delivery depends on the network, which is not
     * modelled: the outcome is any value that is false when unconfigured.
     */
    method Send(m: M) returns (delivered: bool)
      modifies this
      ensures outbox == old(outbox) + [m]
      ensures delivered ==> configured
    {
      outbox := outbox + [m];
      delivered :| delivered ==> configured;
    }
  }

  /** The `Set<string>` of reminder keys that persists across passes. */
  class Ledger<K(==), M> {
    var sent: set<K>

    constructor ()
      ensures sent == {}
    {
      sent := {};
    }

    /**
     * `if (!sent.has(key)) { await send(message); sent.add(key); }`: the key
     * is recorded whatever the channel reports.
     */
    method NotifyOnce(d: Dispatch<K, M>, channel: Channel<M>)
      modifies this, channel
      ensures old(sent) <= sent
      ensures d.key in old(sent) ==> sent == old(sent) && channel.outbox == old(channel.outbox)
      ensures d.key !in old(sent) ==> sent == old(sent) + {d.key} && channel.outbox == old(channel.outbox) + [d.message]
    {
      if d.key !in sent {
        var _ := channel.Send(d.message);
        sent := sent + {d.key};
      }
    }

    /** The ledger and the channel are exactly where `Fire(cands, sent0)` leaves them. */
    ghost predicate After(cands: seq<Dispatch<K, M>>, sent0: set<K>, outbox0: seq<M>, channel: Channel<M>)
      reads this, channel
    {
      sent == Fire(cands, sent0).sent && channel.outbox == outbox0 + Messages(Fire(cands, sent0).fired)
    }

    /** Considering one more candidate keeps the ledger in step with `Fire`. */
    method Consider(d: Dispatch<K, M>, channel: Channel<M>, ghost cands: seq<Dispatch<K, M>>,
                    ghost sent0: set<K>, ghost outbox0: seq<M>)
      requires After(cands, sent0, outbox0, channel)
      modifies this, channel
      ensures After(cands + [d], sent0, outbox0, channel)
      ensures old(sent) <= sent
    {
      FireSnoc(cands, d, sent0);
      MessagesSnoc(Fire(cands, sent0).fired, d);
      NotifyOnce(d, channel);
    }
  }
}

/** The ask tables of one runtime: the lock regions of newAskRequest,
    completeAskRequest and routeAskReply. */
module AskTables {
  import opened Basics
  import opened Pid

  datatype PendingAsk = PendingAsk(requestId: string, target: string, replyTo: PID)

  datatype Tables = Tables(waiting: map<string, PendingAsk>, reply: map<string, string>, closed: map<string, string>)

  const MAX_CLOSED := 4096

  /** askWait and askReply are mutually inverse on the reply addresses of this node. */
  ghost predicate Inverse(node: string, t: Tables)
  {
    && (forall r :: r in t.waiting ==>
          && t.waiting[r].requestId == r && t.waiting[r].replyTo == ReplyTo(node, r)
          && ReplyTo(node, r).Key() in t.reply && t.reply[ReplyTo(node, r).Key()] == r)
    && (forall k :: k in t.reply ==> t.reply[k] in t.waiting && ReplyTo(node, t.reply[k]).Key() == k)
  }

  function Insert(t: Tables, w: PendingAsk): Tables
  {
    t.(waiting := t.waiting[w.requestId := w], reply := t.reply[w.replyTo.Key() := w.requestId])
  }

  function Close(t: Tables, w: PendingAsk): Tables
  {
    t.(waiting := t.waiting - {w.requestId}, reply := t.reply - {w.replyTo.Key()},
       closed := t.closed[w.requestId := w.target])
  }

  /** Close, followed by the eviction of some record when there are too many. */
  function CloseAndEvict(t: Tables, w: PendingAsk, evict: Option<string>): (t': Tables)
    ensures t'.waiting == t.waiting - {w.requestId} && t'.reply == t.reply - {w.replyTo.Key()}
  {
    var full := Close(t, w);
    if |full.closed| > MAX_CLOSED && evict.Some? then full.(closed := full.closed - {evict.value}) else full
  }

  /** The request a reply address currently stands for. */
  function Lookup(t: Tables, pid: PID): Option<string>
  {
    if pid.Key() in t.reply then Some(t.reply[pid.Key()]) else None
  }

  /** What the closed table knows of a reply address that stands for nothing. */
  function LateFor(t: Tables, pid: PID): Option<string>
  {
    if pid.Key() !in t.reply && pid.actorId in t.closed then Some(t.closed[pid.actorId]) else None
  }

  /** The reply lock region: the pending entry moves to the closed table. */
  function Claim(t: Tables, pid: PID): Tables
    requires pid.Key() in t.reply && t.reply[pid.Key()] in t.waiting
  {
    var r := t.reply[pid.Key()];
    t.(waiting := t.waiting - {r}, reply := t.reply - {pid.Key()}, closed := t.closed[r := t.waiting[r].target])
  }

  lemma InsertKeepsInverse(node: string, t: Tables, w: PendingAsk)
    requires Inverse(node, t) && w.replyTo == ReplyTo(node, w.requestId)
    ensures Inverse(node, Insert(t, w))
  {
    forall r: string ensures ReplyTo(node, r).Key() == w.replyTo.Key() <==> r == w.requestId {
      ReplyKeyInjective(node, r, w.requestId);
    }
  }

  lemma CloseKeepsInverse(node: string, t: Tables, w: PendingAsk)
    requires Inverse(node, t) && w.replyTo == ReplyTo(node, w.requestId)
    ensures Inverse(node, Close(t, w))
  {
    forall r: string ensures ReplyTo(node, r).Key() == w.replyTo.Key() <==> r == w.requestId {
      ReplyKeyInjective(node, r, w.requestId);
    }
  }

  lemma ClaimKeepsInverse(node: string, t: Tables, pid: PID)
    requires Inverse(node, t) && pid.Key() in t.reply
    ensures Inverse(node, Claim(t, pid))
  {
    var r0 := t.reply[pid.Key()];
    forall r: string ensures ReplyTo(node, r).Key() == pid.Key() <==> r == r0 {
      ReplyKeyInjective(node, r, r0);
    }
  }

  /** A reply address names exactly the request it was issued for, and any other address
      names nothing. */
  lemma LookupExact(node: string, t: Tables, r: string, pid: PID)
    requires Inverse(node, t)
    ensures Lookup(t, ReplyTo(node, r)) == if r in t.waiting then Some(r) else None
    ensures Lookup(t, pid).Some? ==> pid.Key() == ReplyTo(node, Lookup(t, pid).value).Key()
  {
    var k := ReplyTo(node, r).Key();
    if k in t.reply { ReplyKeyInjective(node, t.reply[k], r); }
  }

  /** askWait, askReply and askClosed under askMu. */
  class AskState {
    const node: string
    var seqNo: nat
    var askWait: map<string, PendingAsk>
    var askReply: map<string, string>
    var askClosed: map<string, string>

    constructor (node: string)
      ensures this.node == node && View() == Tables(map[], map[], map[]) && seqNo == 0
    {
      this.node := node;
      seqNo, askWait, askReply, askClosed := 0, map[], map[], map[];
    }

    function View(): Tables
      reads this
    {
      Tables(askWait, askReply, askClosed)
    }

    method NewAskRequest(target: string) returns (w: PendingAsk)
      requires Inverse(node, View())
      modifies this
      ensures seqNo == old(seqNo) + 1
      ensures w == PendingAsk(AskId(seqNo), target, ReplyTo(node, AskId(seqNo)))
      ensures View() == Insert(old(View()), w) && Inverse(node, View())
    {
      seqNo := seqNo + 1;
      var id := AskId(seqNo);
      var ns := ASK_REPLY;
      if node != "" { ns := ASK_REPLY_AT + node; }
      w := PendingAsk(id, target, PID(ns, id, 1));
      InsertKeepsInverse(node, View(), w);
      askWait := askWait[id := w];
      askReply := askReply[w.replyTo.Key() := id];
    }

    /** Closing records the request and evicts an arbitrary record beyond the limit. */
    method CompleteAskRequest(w: PendingAsk) returns (ghost evicted: Option<string>)
      modifies this`askWait, this`askReply, this`askClosed
      ensures View() == CloseAndEvict(old(View()), w, evicted)
      ensures evicted.None? ==> |askClosed| <= MAX_CLOSED
      ensures |askClosed| <= Max(MAX_CLOSED, |old(askClosed)|)
    {
      askWait := askWait - {w.requestId};
      askReply := askReply - {w.replyTo.Key()};
      askClosed := askClosed[w.requestId := w.target];
      assert askClosed.Keys == old(askClosed).Keys + {w.requestId};
      evicted := None;
      if |askClosed| > MAX_CLOSED {
        assert askClosed.Keys != {};
        var k :| k in askClosed;
        assert (askClosed - {k}).Keys == askClosed.Keys - {k};
        askClosed := askClosed - {k};
        evicted := Some(k);
      }
    }

    /** The lock region of routeAskReply: claims the pending entry of a reply address. */
    method ClaimReply(pid: PID) returns (w: Option<PendingAsk>, late: Option<string>)
      requires Inverse(node, View())
      modifies this
      ensures w.None? <==> Lookup(old(View()), pid).None?
      ensures w.None? ==> View() == old(View())
      ensures late == LateFor(old(View()), pid)
      ensures w.Some? ==> View() == Claim(old(View()), pid) && w.value == old(askWait)[Lookup(old(View()), pid).value]
      ensures seqNo == old(seqNo) && Inverse(node, View())
    {
      var key := pid.Key();
      if key !in askReply {
        return None, if pid.actorId in askClosed then Some(askClosed[pid.actorId]) else None;
      }
      ClaimKeepsInverse(node, View(), pid);
      var id := askReply[key];
      var pending := askWait[id];
      askWait := askWait - {id};
      askReply := askReply - {key};
      askClosed := askClosed[id := pending.target];
      w, late := Some(pending), None;
    }
  }
}

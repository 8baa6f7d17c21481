/** Process identifiers and their namespaces. */
module Pid {

  datatype PID = PID(namespace: string, actorId: string, generation: nat)
  {
    function Key(): string { namespace + ":" + actorId }

    predicate IsRemote(local: string)
    {
      && namespace != "" && namespace != local
      && namespace != ASK_REPLY
      && !(local != "" && namespace == ASK_REPLY_AT + local)
    }
  }

  const ASK_REPLY := "__ask_reply"
  const ASK_REPLY_AT := "__ask_reply@"

  predicate HasPrefix(s: string, prefix: string)
  {
    |prefix| <= |s| && s[..|prefix|] == prefix
  }

  predicate IsAskReplyNamespace(ns: string)
  {
    ns == ASK_REPLY || HasPrefix(ns, ASK_REPLY_AT)
  }

  /** The node an envelope for this namespace is addressed to. */
  function NodeIdFromNamespace(ns: string): string
  {
    if HasPrefix(ns, ASK_REPLY_AT) then ns[|ASK_REPLY_AT|..] else ns
  }

  predicate IsAskReplyLocal(ns: string, local: string)
  {
    ns == ASK_REPLY || (local != "" && ns == ASK_REPLY_AT + local)
  }

  /** Namespace under which a node issues its reply addresses. */
  function ReplyNamespace(node: string): string
  {
    if node == "" then ASK_REPLY else ASK_REPLY_AT + node
  }

  lemma ConcatCancel<T>(a: seq<T>, b: seq<T>, c: seq<T>)
    ensures a + b == a + c <==> b == c
    ensures (a + b)[|a|..] == b && (a + b)[..|a|] == a
  {
    if a + b == a + c {
      assert b == (a + b)[|a|..] == (a + c)[|a|..] == c;
    }
  }

  /** The node qualifier is recovered exactly, and distinguishes the issuing nodes. */
  lemma ReplyNamespaceRoundTrip(a: string, b: string)
    requires a != ""
    ensures NodeIdFromNamespace(ReplyNamespace(a)) == a
    ensures IsAskReplyNamespace(ReplyNamespace(a)) && ReplyNamespace(a) != ASK_REPLY
    ensures b != "" ==> (ReplyNamespace(a) == ReplyNamespace(b) <==> a == b)
    ensures IsAskReplyLocal(ReplyNamespace(a), b) <==> a == b
  {
    ConcatCancel(ASK_REPLY_AT, a, b);
  }

  /** Keys identify a namespace and an actor when namespaces contain no colon. */
  lemma KeyInjective(p: PID, q: PID)
    requires ':' !in p.namespace && ':' !in q.namespace && p.Key() == q.Key()
    ensures p.namespace == q.namespace && p.actorId == q.actorId
  {
    var i, j := |p.namespace|, |q.namespace|;
    assert p.Key()[i] == ':' && q.Key()[j] == ':';
    assert forall k | 0 <= k < i :: p.Key()[k] == p.namespace[k] != ':';
    assert forall k | 0 <= k < j :: q.Key()[k] == q.namespace[k] != ':';
    assert i == j;
    assert p.namespace == p.Key()[..i] == q.Key()[..j];
    assert p.actorId == p.Key()[i + 1..] == q.Key()[j + 1..];
  }

  lemma SplitAt(s: string, i: nat)
    requires i < |s| && s[i] == ':'
    ensures s == s[..i] + ":" + s[i + 1..]
  {}

  /** A colon in either part gives the key a second reading. */
  lemma SecondReading(p: PID) returns (q: PID)
    requires ':' in p.namespace || ':' in p.actorId
    ensures q.Key() == p.Key() && q.namespace != p.namespace
  {
    if ':' in p.namespace {
      var i :| 0 <= i < |p.namespace| && p.namespace[i] == ':';
      SplitAt(p.namespace, i);
      q := PID(p.namespace[..i], p.namespace[i + 1..] + ":" + p.actorId, p.generation);
      assert q.Key() == p.namespace[..i] + ":" + p.namespace[i + 1..] + ":" + p.actorId;
    } else {
      var i :| 0 <= i < |p.actorId| && p.actorId[i] == ':';
      SplitAt(p.actorId, i);
      q := PID(p.namespace + ":" + p.actorId[..i], p.actorId[i + 1..], p.generation);
      assert q.Key() == p.namespace + ":" + (p.actorId[..i] + ":" + p.actorId[i + 1..]);
    }
  }

  /** A key without a second colon has one reading. */
  lemma OneReading(p: PID, q: PID)
    requires ':' !in p.namespace && ':' !in p.actorId && q.Key() == p.Key()
    ensures q.namespace == p.namespace && q.actorId == p.actorId
  {
    var i := |q.namespace|;
    assert q.Key()[i] == ':' && p.Key()[i] == ':';
    assert i == |p.namespace|;
    assert q.namespace == q.Key()[..i] == p.Key()[..i] == p.namespace;
    assert q.actorId == q.Key()[i + 1..] == p.Key()[i + 1..] == p.actorId;
  }

  /** A key identifies its address exactly when neither part contains a colon. */
  lemma KeyExact(p: PID)
    ensures (forall q: PID :: q.Key() == p.Key() ==> q.namespace == p.namespace && q.actorId == p.actorId) <==>
            ':' !in p.namespace && ':' !in p.actorId
  {
    if ':' in p.namespace || ':' in p.actorId {
      var q := SecondReading(p);
    } else {
      forall q: PID | q.Key() == p.Key() ensures q.namespace == p.namespace && q.actorId == p.actorId { OneReading(p, q); }
    }
  }

  /** Without that restriction two different addresses can share a key. */
  lemma KeyCollides()
    ensures PID("a:b", "c", 1).Key() == PID("a", "b:c", 1).Key()
  {}

  // --- request identifiers ---

  function Digit(d: nat): char
    requires d < 10
  {
    ['0', '1', '2', '3', '4', '5', '6', '7', '8', '9'][d]
  }

  function Decimal(n: nat): string
  {
    if n < 10 then [Digit(n)] else Decimal(n / 10) + [Digit(n % 10)]
  }

  lemma {:induction false} DecimalInjective(m: nat, n: nat)
    requires Decimal(m) == Decimal(n)
    ensures m == n
  {
    var s, t := Decimal(m), Decimal(n);
    assert s[|s| - 1] == Digit(m % 10) && t[|t| - 1] == Digit(n % 10);
    if m >= 10 && n >= 10 {
      assert s[..|s| - 1] == Decimal(m / 10) && t[..|t| - 1] == Decimal(n / 10);
      DecimalInjective(m / 10, n / 10);
    } else if m >= 10 {
      DecimalNonEmpty(m / 10);
    } else if n >= 10 {
      DecimalNonEmpty(n / 10);
    }
  }

  lemma DecimalNonEmpty(n: nat)
    ensures Decimal(n) != []
  {}

  function AskId(n: nat): string { "ask-" + Decimal(n) }

  lemma AskIdInjective(m: nat, n: nat)
    ensures AskId(m) == AskId(n) <==> m == n
  {
    ConcatCancel("ask-", Decimal(m), Decimal(n));
    if Decimal(m) == Decimal(n) { DecimalInjective(m, n); }
  }

  function ReplyTo(node: string, id: string): PID { PID(ReplyNamespace(node), id, 1) }

  lemma ReplyKeyInjective(node: string, a: string, b: string)
    ensures ReplyTo(node, a).Key() == ReplyTo(node, b).Key() <==> a == b
  {
    ConcatCancel(ReplyNamespace(node) + ":", a, b);
  }
}

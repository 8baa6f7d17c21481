/** Monitors: every reference ends in one way, and yields at most one DownMessage. */
module Monitors {
  import opened Basics
  import opened Pid

  datatype MonitorEntry = MonitorEntry(ref: nat, watcher: PID, target: PID)

  predicate DistinctRefs(es: seq<MonitorEntry>)
  {
    forall i, j :: 0 <= i < j < |es| ==> es[i].ref != es[j].ref
  }

  function Refs(es: seq<MonitorEntry>): seq<nat> { seq(|es|, i requires 0 <= i < |es| => es[i].ref) }

  function At(byTarget: map<string, seq<MonitorEntry>>, t: string): seq<MonitorEntry>
  {
    if t in byTarget then byTarget[t] else []
  }

  /** Without the entry of that reference. */
  function Without(es: seq<MonitorEntry>, ref: nat): seq<MonitorEntry>
  {
    if es == [] then [] else if es[0].ref == ref then es[1..] else [es[0]] + Without(es[1..], ref)
  }

  lemma HeadAndTail(es: seq<MonitorEntry>, e: MonitorEntry)
    requires es != []
    ensures e in es <==> e == es[0] || e in es[1..]
  {
    if e in es { var i :| 0 <= i < |es| && es[i] == e; assert i > 0 ==> es[1..][i - 1] == e; }
  }

  lemma HeadIsAlone(es: seq<MonitorEntry>, e: MonitorEntry)
    requires es != [] && DistinctRefs(es) && e in es[1..]
    ensures e.ref != es[0].ref
  {
    var i :| 0 <= i < |es[1..]| && es[1..][i] == e;
    assert es[i + 1] == e;
  }

  lemma {:induction false} WithoutExact(es: seq<MonitorEntry>, ref: nat)
    requires DistinctRefs(es)
    ensures DistinctRefs(Without(es, ref))
    ensures forall e :: e in Without(es, ref) <==> e in es && e.ref != ref
  {
    if es != [] {
      var rest := Without(es[1..], ref);
      WithoutExact(es[1..], ref);
      forall e: MonitorEntry ensures e in Without(es, ref) <==> e in es && e.ref != ref {
        HeadAndTail(es, e);
        if e in es[1..] { HeadIsAlone(es, e); }
      }
      forall i | 0 <= i < |rest| ensures rest[i].ref != es[0].ref { HeadIsAlone(es, rest[i]); }
    }
  }

  /** drawn: references taken from the counter and not yet in the indexes; cancelled: removed
      by their holder; downs: the references of the DownMessages sent. */
  datatype Book = Book(
    count: nat, drawn: set<nat>, byTarget: map<string, seq<MonitorEntry>>, byRef: map<nat, MonitorEntry>,
    cancelled: set<nat>, downs: seq<nat>)

  // --- the indexes hold the same monitors ---

  ghost predicate RefOk(b: Book, id: nat)
  {
    id in b.byRef ==> b.byRef[id].ref == id && b.byRef[id] in At(b.byTarget, b.byRef[id].target.actorId)
  }

  ghost predicate EntryOk(b: Book, t: string, e: MonitorEntry)
  {
    e.target.actorId == t && e.ref in b.byRef && b.byRef[e.ref] == e
  }

  ghost predicate ListOk(b: Book, t: string)
  {
    && DistinctRefs(At(b.byTarget, t)) && (t in b.byTarget ==> b.byTarget[t] != [])
    && forall e :: e in At(b.byTarget, t) ==> EntryOk(b, t, e)
  }

  ghost predicate Indexed(b: Book)
  {
    (forall id :: RefOk(b, id)) && (forall t :: ListOk(b, t))
  }

  // --- every reference has one fate ---

  /** A reference handed out is drawn, live, cancelled or fired, exactly one of the four. */
  ghost predicate OneFate(b: Book, id: nat)
  {
    && (1 <= id <= b.count <==> id in b.drawn || id in b.byRef || id in b.cancelled || id in b.downs)
    && (id in b.drawn ==> id !in b.byRef && id !in b.cancelled && id !in b.downs)
    && (id in b.byRef ==> id !in b.cancelled && id !in b.downs)
    && (id in b.cancelled ==> id !in b.downs)
  }

  /** And none fires twice. */
  ghost predicate Accounted(b: Book)
  {
    NoDup(b.downs) && forall id: nat :: OneFate(b, id)
  }

  ghost predicate Inv(b: Book) { Indexed(b) && Accounted(b) }

  // --- the operations ---

  /** The reference is drawn before the lock is taken. */
  function Drawn(b: Book): Book { b.(count := b.count + 1, drawn := b.drawn + {b.count + 1}) }

  function Inserted(b: Book, e: MonitorEntry): Book
  {
    if e.ref !in b.drawn then b
    else
      var t := e.target.actorId;
      b.(drawn := b.drawn - {e.ref}, byTarget := b.byTarget[t := At(b.byTarget, t) + [e]], byRef := b.byRef[e.ref := e])
  }

  function Removed(b: Book, ref: nat): Book
  {
    if ref !in b.byRef then b
    else
      var t := b.byRef[ref].target.actorId;
      var rest := Without(At(b.byTarget, t), ref);
      b.(byTarget := if rest == [] then b.byTarget - {t} else b.byTarget[t := rest],
         byRef := b.byRef - {ref}, cancelled := b.cancelled + {ref})
  }

  function Drained(b: Book, t: string): Book
  {
    var refs := Refs(At(b.byTarget, t));
    b.(byTarget := b.byTarget - {t}, byRef := b.byRef - Elements(refs), downs := b.downs + refs)
  }

  lemma DrawnKeeps(b: Book)
    requires Inv(b)
    ensures Inv(Drawn(b))
  {
    var b' := Drawn(b);
    forall id: nat ensures RefOk(b', id) && OneFate(b', id) { assert RefOk(b, id) && OneFate(b, id); }
    forall t ensures ListOk(b', t) {
      assert ListOk(b, t);
      forall e | e in At(b.byTarget, t) ensures EntryOk(b', t, e) { assert EntryOk(b, t, e); }
    }
  }

  // inserting

  lemma InsertedList(b: Book, e: MonitorEntry, t: string)
    requires Inv(b) && e.ref in b.drawn
    ensures ListOk(Inserted(b, e), t)
  {
    var b', es := Inserted(b, e), At(b.byTarget, t);
    assert ListOk(b, t) && OneFate(b, e.ref);
    forall i | 0 <= i < |es| ensures es[i].ref != e.ref { assert EntryOk(b, t, es[i]); }
    assert At(b'.byTarget, t) == if t == e.target.actorId then es + [e] else es;
    forall x | x in At(b'.byTarget, t) ensures EntryOk(b', t, x) { assert x in es ==> EntryOk(b, t, x); }
  }

  lemma InsertedKeeps(b: Book, e: MonitorEntry)
    requires Inv(b)
    ensures Inv(Inserted(b, e))
  {
    if e.ref in b.drawn {
      var b' := Inserted(b, e);
      forall id: nat ensures RefOk(b', id) && OneFate(b', id) {
        assert RefOk(b, id) && OneFate(b, id);
      }
      forall t ensures ListOk(b', t) { InsertedList(b, e, t); }
    }
  }

  // cancelling

  lemma RemovedAt(b: Book, ref: nat, t: string)
    requires Indexed(b) && ref in b.byRef
    ensures DistinctRefs(At(Removed(b, ref).byTarget, t))
    ensures forall e :: e in At(Removed(b, ref).byTarget, t) <==> e in At(b.byTarget, t) && e.ref != ref
  {
    var home := b.byRef[ref].target.actorId;
    assert ListOk(b, home) && ListOk(b, t);
    WithoutExact(At(b.byTarget, home), ref);
    assert At(Removed(b, ref).byTarget, t) == if t == home then Without(At(b.byTarget, home), ref) else At(b.byTarget, t);
    forall e | e in At(b.byTarget, t) && t != home ensures e.ref != ref { assert EntryOk(b, t, e); }
  }

  lemma RemovedRef(b: Book, ref: nat, id: nat)
    requires Indexed(b) && ref in b.byRef
    ensures RefOk(Removed(b, ref), id)
  {
    assert RefOk(b, id);
    if id in b.byRef { RemovedAt(b, ref, b.byRef[id].target.actorId); }
  }

  lemma RemovedList(b: Book, ref: nat, t: string)
    requires Indexed(b) && ref in b.byRef
    ensures ListOk(Removed(b, ref), t)
  {
    assert ListOk(b, t);
    RemovedAt(b, ref, t);
    var b' := Removed(b, ref);
    forall e | e in At(b'.byTarget, t) ensures EntryOk(b', t, e) { assert EntryOk(b, t, e); }
  }

  lemma RemovedKeeps(b: Book, ref: nat)
    requires Inv(b)
    ensures Inv(Removed(b, ref))
  {
    if ref in b.byRef {
      var b' := Removed(b, ref);
      forall id: nat ensures RefOk(b', id) && OneFate(b', id) {
        RemovedRef(b, ref, id);
        assert OneFate(b, id);
      }
      forall t ensures ListOk(b', t) { RemovedList(b, ref, t); }
    }
  }

  // draining

  lemma RefsExact(es: seq<MonitorEntry>, id: nat)
    ensures id in Refs(es) <==> exists e :: e in es && e.ref == id
  {
    if id in Refs(es) {
      var i :| 0 <= i < |es| && Refs(es)[i] == id;
      assert es[i] in es;
    }
    if exists e :: e in es && e.ref == id {
      var i :| 0 <= i < |es| && es[i].ref == id;
      assert Refs(es)[i] == id;
    }
  }

  /** A drain takes exactly the live monitors of the stopped actor. */
  lemma DrainedRefs(b: Book, t: string, id: nat)
    requires Indexed(b)
    ensures id in Elements(Refs(At(b.byTarget, t))) <==> id in b.byRef && b.byRef[id].target.actorId == t
  {
    var es := At(b.byTarget, t);
    RefsExact(es, id);
    assert RefOk(b, id) && ListOk(b, t);
    if id in Refs(es) {
      var e :| e in es && e.ref == id;
      assert EntryOk(b, t, e);
    }
  }

  lemma DrainedList(b: Book, t: string, s: string)
    requires Indexed(b)
    ensures ListOk(Drained(b, t), s)
  {
    var b' := Drained(b, t);
    assert ListOk(b, s);
    assert At(b'.byTarget, s) == if s == t then [] else At(b.byTarget, s);
    forall e | e in At(b'.byTarget, s) ensures EntryOk(b', s, e) {
      assert EntryOk(b, s, e);
      DrainedRefs(b, t, e.ref);
    }
  }

  lemma DrainedRef(b: Book, t: string, id: nat)
    requires Indexed(b)
    ensures RefOk(Drained(b, t), id)
  {
    assert RefOk(b, id);
    DrainedRefs(b, t, id);
  }

  lemma DrainedFate(b: Book, t: string, id: nat)
    requires Indexed(b) && OneFate(b, id)
    ensures OneFate(Drained(b, t), id)
  {
    DrainedRefs(b, t, id);
  }

  lemma DrainedOnce(b: Book, t: string)
    requires Inv(b)
    ensures NoDup(Drained(b, t).downs)
  {
    var refs := Refs(At(b.byTarget, t));
    assert ListOk(b, t);
    forall i | 0 <= i < |refs| ensures refs[i] !in b.downs {
      DrainedRefs(b, t, refs[i]);
      assert OneFate(b, refs[i]);
    }
  }

  lemma DrainedKeeps(b: Book, t: string)
    requires Inv(b)
    ensures Inv(Drained(b, t))
  {
    var b' := Drained(b, t);
    forall id: nat ensures RefOk(b', id) && OneFate(b', id) {
      DrainedRef(b, t, id);
      assert OneFate(b, id);
      DrainedFate(b, t, id);
    }
    forall s ensures ListOk(b', s) { DrainedList(b, t, s); }
    DrainedOnce(b, t);
  }

  /** A drain fires exactly the live monitors of the stopped actor, each once. */
  lemma DrainExact(b: Book, t: string, id: nat)
    requires Inv(b)
    ensures id in Drained(b, t).downs <==> id in b.downs || (id in b.byRef && b.byRef[id].target.actorId == t)
    ensures id in Drained(b, t).byRef <==> id in b.byRef && b.byRef[id].target.actorId != t
  {
    DrainedRefs(b, t, id);
  }

  // --- runs ---

  /** The lock regions and the counter, in any order of any callers. */
  datatype Command = Draw | Insert(entry: MonitorEntry) | Demonitor(ref: nat) | Down(actor: string)

  function Apply(b: Book, c: Command): Book
  {
    match c
    case Draw => Drawn(b)
    case Insert(e) => Inserted(b, e)
    case Demonitor(ref) => Removed(b, ref)
    case Down(a) => Drained(b, a)
  }

  function Run(cmds: seq<Command>): Book
  {
    if cmds == [] then Book(0, {}, map[], map[], {}, []) else Apply(Run(cmds[..|cmds| - 1]), cmds[|cmds| - 1])
  }

  lemma StartOk()
    ensures Inv(Book(0, {}, map[], map[], {}, []))
  {
    var b := Book(0, {}, map[], map[], {}, []);
    forall t ensures ListOk(b, t) { assert At(b.byTarget, t) == []; }
  }

  /** In every run no reference fires twice, none fires after being cancelled, and none is lost. */
  lemma {:induction false} MonitorsConserved(cmds: seq<Command>)
    ensures Inv(Run(cmds))
  {
    if cmds == [] {
      StartOk();
    } else {
      var b := Run(cmds[..|cmds| - 1]);
      MonitorsConserved(cmds[..|cmds| - 1]);
      match cmds[|cmds| - 1]
      case Draw => DrawnKeeps(b);
      case Insert(e) => InsertedKeeps(b, e);
      case Demonitor(ref) => RemovedKeeps(b, ref);
      case Down(a) => DrainedKeeps(b, a);
    }
  }

  // --- what the history says of a reference ---

  datatype Fate = Unknown | Waiting | Live(entry: MonitorEntry) | Cancelled | Fired

  function Draws(cmds: seq<Command>): nat
  {
    if cmds == [] then 0 else Draws(cmds[..|cmds| - 1]) + if cmds[|cmds| - 1] == Draw then 1 else 0
  }

  /** The n-th draw hands out n; an insertion makes it live; cancelling it, or the end of the
      actor it watches, ends it for good. */
  function FateOf(cmds: seq<Command>, id: nat): Fate
  {
    if cmds == [] then Unknown
    else
      var init := cmds[..|cmds| - 1];
      var before := FateOf(init, id);
      match cmds[|cmds| - 1]
      case Draw => if id == Draws(init) + 1 then Waiting else before
      case Insert(e) => if e.ref == id && before == Waiting then Live(e) else before
      case Demonitor(ref) => if ref == id && before.Live? then Cancelled else before
      case Down(a) => if before.Live? && before.entry.target.actorId == a then Fired else before
  }

  ghost predicate HasFate(b: Book, id: nat, f: Fate)
  {
    && (id in b.drawn <==> f == Waiting) && (id in b.byRef <==> f.Live?) && (f.Live? ==> b.byRef[id] == f.entry)
    && (id in b.cancelled <==> f == Cancelled) && (id in b.downs <==> f == Fired)
  }

  lemma StepFate(b: Book, c: Command, id: nat, f: Fate)
    requires Inv(b) && HasFate(b, id, f)
    ensures HasFate(Apply(b, c), id,
              match c
              case Draw => if id == b.count + 1 then Waiting else f
              case Insert(e) => if e.ref == id && f == Waiting then Live(e) else f
              case Demonitor(ref) => if ref == id && f.Live? then Cancelled else f
              case Down(a) => if f.Live? && f.entry.target.actorId == a then Fired else f)
  {
    assert OneFate(b, id);
    if c.Down? {
      DrainExact(b, c.actor, id);
      DrainedRefs(b, c.actor, id);
    }
  }

  /** In every run the indexes, the cancellations and the messages sent tell the fate of every
      reference. */
  lemma {:induction false} FatesExact(cmds: seq<Command>, id: nat)
    ensures HasFate(Run(cmds), id, FateOf(cmds, id)) && Run(cmds).count == Draws(cmds)
  {
    if cmds != [] {
      var init := cmds[..|cmds| - 1];
      FatesExact(init, id);
      MonitorsConserved(init);
      StepFate(Run(init), cmds[|cmds| - 1], id, FateOf(init, id));
    }
  }

  class MonitorManager {
    var count: nat
    ghost var drawn: set<nat>
    var byTarget: map<string, seq<MonitorEntry>>
    var byRef: map<nat, MonitorEntry>
    ghost var cancelled: set<nat>
    ghost var downs: seq<nat>

    ghost function View(): Book
      reads this
    {
      Book(count, drawn, byTarget, byRef, cancelled, downs)
    }

    constructor ()
      ensures View() == Run([]) && Inv(View())
    {
      count, drawn, byTarget, byRef, cancelled, downs := 0, {}, map[], map[], {}, [];
      new;
      StartOk();
    }

    /** The atomic counter, before the lock: a reference nobody else has or had. */
    method DrawRef() returns (ref: nat)
      requires Inv(View())
      modifies this`count, this`drawn
      ensures Inv(View()) && View() == Drawn(old(View()))
      ensures ref in drawn && ref !in old(drawn) && ref !in byRef && ref !in cancelled && ref !in downs
    {
      DrawnKeeps(View());
      assert OneFate(View(), count + 1);
      count := count + 1;
      drawn := drawn + {count};
      ref := count;
    }

    /** The lock region: whatever happened since the reference was drawn. */
    method Enter(ref: nat, watcher: PID, target: PID)
      requires Inv(View()) && ref in drawn
      modifies this`drawn, this`byTarget, this`byRef
      ensures Inv(View()) && View() == Inserted(old(View()), MonitorEntry(ref, watcher, target))
    {
      var entry := MonitorEntry(ref, watcher, target);
      InsertedKeeps(View(), entry);
      drawn := drawn - {ref};
      byTarget := byTarget[target.actorId := At(byTarget, target.actorId) + [entry]];
      byRef := byRef[ref := entry];
    }

    /** The splice: the first entry of that reference is cut out of the slice. */
    method Splice(entries: seq<MonitorEntry>, ref: nat) returns (rest: seq<MonitorEntry>)
      ensures rest == Without(entries, ref)
    {
      var i := 0;
      while i < |entries| && entries[i].ref != ref
        invariant 0 <= i <= |entries|
        invariant Without(entries, ref) == entries[..i] + Without(entries[i..], ref)
      {
        assert entries[i..][1..] == entries[i + 1..];
        assert entries[..i + 1] == entries[..i] + [entries[i]];
        i := i + 1;
      }
      if i == |entries| { return entries; }
      assert entries[i..][1..] == entries[i + 1..];
      return entries[..i] + entries[i + 1..];
    }

    method Remove(ref: nat) returns (ok: bool)
      requires Inv(View())
      modifies this
      ensures Inv(View()) && View() == Removed(old(View()), ref) && (ok <==> ref in old(byRef))
    {
      RemovedKeeps(View(), ref);
      if ref !in byRef { return false; }
      var t := byRef[ref].target.actorId;
      byRef := byRef - {ref};
      var rest := Splice(At(byTarget, t), ref);
      byTarget := if rest == [] then byTarget - {t} else byTarget[t := rest];
      cancelled := cancelled + {ref};
      ok := true;
    }

    method ForgetRefs(entries: seq<MonitorEntry>)
      modifies this`byRef
      ensures byRef == old(byRef) - Elements(Refs(entries))
    {
      for i := 0 to |entries|
        invariant byRef == old(byRef) - Elements(Refs(entries[..i]))
      {
        RefsMore(entries, i);
        byRef := byRef - {entries[i].ref};
      }
      assert entries[..|entries|] == entries;
    }

    method Drain(actor: string) returns (entries: seq<MonitorEntry>)
      modifies this
      ensures View() == Drained(old(View()), actor) && entries == old(At(byTarget, actor))
    {
      entries := At(byTarget, actor);
      byTarget := byTarget - {actor};
      ForgetRefs(entries);
      downs := downs + Refs(entries);
    }

    /** Every watcher of a stopped actor is sent one DownMessage. */
    method NotifyMonitors(actor: string) returns (messages: seq<MonitorEntry>)
      requires Inv(View())
      modifies this
      ensures Inv(View()) && View() == Drained(old(View()), actor) && messages == old(At(byTarget, actor))
    {
      DrainedKeeps(View(), actor);
      messages := Drain(actor);
    }
  }

  lemma RefsMore(es: seq<MonitorEntry>, i: nat)
    requires i < |es|
    ensures Elements(Refs(es[..i + 1])) == Elements(Refs(es[..i])) + {es[i].ref}
  {
    assert Refs(es[..i + 1]) == Refs(es[..i]) + [es[i].ref];
  }
}

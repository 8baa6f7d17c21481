/** The local name registry: names and their actors, both ways. */
module NameRegistry {
  import opened Basics
  import opened Pid

  datatype NamedEntry = NamedEntry(name: string, actorId: string, pid: PID)

  predicate NameChar(c: char) { 'A' <= c <= 'Z' || 'a' <= c <= 'z' || '0' <= c <= '9' }

  /** A letter or digit, then at most 127 letters, digits, dots, underscores or hyphens. */
  predicate ValidName(name: string)
  {
    1 <= |name| <= 128 && NameChar(name[0]) && forall i :: 1 <= i < |name| ==> NameChar(name[i]) || name[i] in "._-"
  }

  datatype Index = Index(byName: map<string, NamedEntry>, byActor: map<string, set<string>>)

  function NamesOf(byActor: map<string, set<string>>, a: string): set<string> { if a in byActor then byActor[a] else {} }

  /** The two indexes are inverse, and no actor is kept without a name. */
  ghost predicate Inverse(ix: Index)
  {
    && (forall n :: n in ix.byName ==> ix.byName[n].name == n && n in NamesOf(ix.byActor, ix.byName[n].actorId))
    && (forall a, n :: n in NamesOf(ix.byActor, a) ==> n in ix.byName && ix.byName[n].actorId == a)
    && (forall a :: a in ix.byActor ==> ix.byActor[a] != {})
  }

  function Registered(ix: Index, e: NamedEntry): Index
  {
    Index(ix.byName[e.name := e], ix.byActor[e.actorId := NamesOf(ix.byActor, e.actorId) + {e.name}])
  }

  function Unregistered(ix: Index, name: string): Index
    requires name in ix.byName
  {
    var a := ix.byName[name].actorId;
    var rest := NamesOf(ix.byActor, a) - {name};
    Index(ix.byName - {name}, if rest == {} then ix.byActor - {a} else ix.byActor[a := rest])
  }

  function Released(ix: Index, a: string): Index
  {
    Index(ix.byName - NamesOf(ix.byActor, a), ix.byActor - {a})
  }

  lemma RegisteredKeeps(ix: Index, e: NamedEntry)
    requires Inverse(ix) && e.name !in ix.byName
    ensures Inverse(Registered(ix, e))
  {
    var ix' := Registered(ix, e);
    assert forall b :: NamesOf(ix'.byActor, b) == NamesOf(ix.byActor, b) + if b == e.actorId then {e.name} else {};
  }

  lemma UnregisteredKeeps(ix: Index, name: string)
    requires Inverse(ix) && name in ix.byName
    ensures Inverse(Unregistered(ix, name))
  {
    var a, ix' := ix.byName[name].actorId, Unregistered(ix, name);
    assert forall b :: NamesOf(ix'.byActor, b) == NamesOf(ix.byActor, b) - if b == a then {name} else {};
    assert forall b :: b != a ==> name !in NamesOf(ix.byActor, b);
  }

  lemma ReleasedKeeps(ix: Index, a: string)
    requires Inverse(ix)
    ensures Inverse(Released(ix, a))
    ensures forall n :: n in Released(ix, a).byName <==> n in ix.byName && ix.byName[n].actorId != a
  {
    var ix' := Released(ix, a);
    assert forall b :: NamesOf(ix'.byActor, b) == if b == a then {} else NamesOf(ix.byActor, b);
  }

  /** Registering a free name and giving it up again restores both indexes. */
  lemma UnregisterUndoes(ix: Index, e: NamedEntry)
    requires Inverse(ix) && e.name !in ix.byName
    ensures Unregistered(Registered(ix, e), e.name) == ix
  {
    var names := NamesOf(ix.byActor, e.actorId);
    assert e.name !in names;
    assert names + {e.name} - {e.name} == names;
    assert ix.byName[e.name := e] - {e.name} == ix.byName;
  }

  // --- what the history says ---

  datatype Command = Register(entry: NamedEntry) | Unregister(name: string) | Release(actorId: string)

  function Apply(ix: Index, c: Command): Index
  {
    match c
    case Register(e) => if ValidName(e.name) && e.name !in ix.byName then Registered(ix, e) else ix
    case Unregister(n) => if n in ix.byName then Unregistered(ix, n) else ix
    case Release(a) => Released(ix, a)
  }

  function ApplyAll(cmds: seq<Command>): Index
  {
    if cmds == [] then Index(map[], map[]) else Apply(ApplyAll(cmds[..|cmds| - 1]), cmds[|cmds| - 1])
  }

  /** Who holds the name: the first to ask for it since it was last given up, by name or with
      its actor. */
  function Holder(cmds: seq<Command>, name: string): Option<NamedEntry>
  {
    if cmds == [] then None
    else
      var before := Holder(cmds[..|cmds| - 1], name);
      match cmds[|cmds| - 1]
      case Register(e) => if before.None? && e.name == name && ValidName(name) then Some(e) else before
      case Unregister(n) => if n == name then None else before
      case Release(a) => if before.Some? && before.value.actorId == a then None else before
  }

  /** After every run both indexes tell who holds which name. */
  lemma {:induction false} HoldersExact(cmds: seq<Command>)
    ensures Inverse(ApplyAll(cmds))
    ensures forall n :: Holder(cmds, n) == if n in ApplyAll(cmds).byName then Some(ApplyAll(cmds).byName[n]) else None
    ensures forall a, n :: n in NamesOf(ApplyAll(cmds).byActor, a) <==> Holder(cmds, n).Some? && Holder(cmds, n).value.actorId == a
  {
    if cmds != [] {
      var init, c := cmds[..|cmds| - 1], cmds[|cmds| - 1];
      HoldersExact(init);
      var ix := ApplyAll(init);
      match c
      case Register(e) => if e.name !in ix.byName { RegisteredKeeps(ix, e); }
      case Unregister(n) => if n in ix.byName { UnregisteredKeeps(ix, n); }
      case Release(a) => ReleasedKeeps(ix, a);
      forall n ensures Holder(cmds, n) == if n in ApplyAll(cmds).byName then Some(ApplyAll(cmds).byName[n]) else None {
        assert Holder(init, n) == if n in ix.byName then Some(ix.byName[n]) else None;
      }
    }
  }

  datatype Outcome = Ok | InvalidName | DuplicateName

  class NamedRegistry {
    var byName: map<string, NamedEntry>
    var byActor: map<string, set<string>>

    ghost function View(): Index
      reads this
    {
      Index(byName, byActor)
    }

    constructor ()
      ensures Inverse(View()) && View() == Index(map[], map[])
    {
      byName, byActor := map[], map[];
    }

    method Register(name: string, actorId: string, pid: PID) returns (outcome: Outcome)
      requires Inverse(View())
      modifies this
      ensures Inverse(View())
      ensures outcome == if !ValidName(name) then InvalidName else if name in old(byName) then DuplicateName else Ok
      ensures View() == if outcome == Ok then Registered(old(View()), NamedEntry(name, actorId, pid)) else old(View())
    {
      if !ValidName(name) { return InvalidName; }
      if name in byName { return DuplicateName; }
      RegisteredKeeps(View(), NamedEntry(name, actorId, pid));
      byName := byName[name := NamedEntry(name, actorId, pid)];
      if actorId !in byActor { byActor := byActor[actorId := {}]; }
      byActor := byActor[actorId := byActor[actorId] + {name}];
      assert byActor == old(byActor)[actorId := NamesOf(old(byActor), actorId) + {name}];
      outcome := Ok;
    }

    method Unregister(name: string) returns (entry: Option<NamedEntry>)
      requires Inverse(View())
      modifies this
      ensures Inverse(View())
      ensures entry == if name in old(byName) then Some(old(byName)[name]) else None
      ensures View() == if name in old(byName) then Unregistered(old(View()), name) else old(View())
    {
      if name !in byName { return None; }
      UnregisteredKeeps(View(), name);
      var e := byName[name];
      byName := byName - {name};
      if e.actorId in byActor {
        var names := byActor[e.actorId] - {name};
        byActor := if names == {} then byActor - {e.actorId} else byActor[e.actorId := names];
      }
      entry := Some(e);
    }

    /** Gives up the names of the set that are registered. */
    method Sweep(names: set<string>) returns (out: seq<NamedEntry>)
      modifies this`byName
      ensures byName == old(byName) - names
      ensures forall e :: e in out <==> exists n :: n in names && n in old(byName) && old(byName)[n] == e
    {
      out := [];
      var todo := names;
      while todo != {}
        invariant todo <= names && byName == old(byName) - (names - todo)
        invariant forall e :: e in out <==> exists n :: n in names - todo && n in old(byName) && old(byName)[n] == e
      {
        var name :| name in todo;
        todo := todo - {name};
        if name in byName {
          out := out + [byName[name]];
          byName := byName - {name};
        }
      }
    }

    /** All names of a stopped actor are given up and returned. */
    method UnregisterByActor(actorId: string) returns (out: seq<NamedEntry>)
      requires Inverse(View())
      modifies this
      ensures Inverse(View()) && View() == Released(old(View()), actorId)
      ensures forall e :: e in out <==> e.name in old(byName) && old(byName)[e.name] == e && e.actorId == actorId
    {
      ReleasedKeeps(View(), actorId);
      out := [];
      if actorId !in byActor { return; }
      out := Sweep(byActor[actorId]);
      byActor := byActor - {actorId};
    }
  }
}

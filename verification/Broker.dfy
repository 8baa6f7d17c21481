/** The publish/subscribe broker: its indexes, its trie and its announcements to the cluster. */
module Broker {
  import opened Basics
  import opened TopicPattern
  import opened Pid
  import opened Trie

  type PatternIndex = map<string, map<string, PID>>
  type SubscriberIndex = map<string, set<string>>

  /** The subscriptions, as (pattern, subscriber key) pairs. */
  ghost function Subs(byPattern: PatternIndex): set<(string, string)>
  {
    set raw, k | raw in byPattern && k in byPattern[raw] && Has(byPattern, raw, k) :: (raw, k)
  }

  /** Patterns the trie answers for. */
  predicate Recordable(raw: string)
  {
    ParseTopicPattern(raw).Ok? && !EndsWith(Split(raw), "+")
  }

  ghost function Entries(subs: set<(string, string)>): set<Entry>
  {
    set s | s in subs && Recordable(s.0) :: EntryOf(Split(s.0), s.1)
  }

  /** The two indexes hold the same subscriptions, and neither keeps an empty entry. */
  ghost predicate Consistent(byPattern: PatternIndex, bySubscriber: SubscriberIndex)
  {
    && (forall raw :: raw in byPattern ==> byPattern[raw] != map[])
    && (forall k :: k in bySubscriber ==> bySubscriber[k] != {})
    && (forall raw, k :: Has(byPattern, raw, k) <==> HasKey(bySubscriber, k, raw))
  }

  predicate Has(byPattern: PatternIndex, raw: string, k: string) { raw in byPattern && k in byPattern[raw] }

  predicate HasKey(bySubscriber: SubscriberIndex, k: string, raw: string) { k in bySubscriber && raw in bySubscriber[k] }

  // --- the indexes ---

  function AddTo(byPattern: PatternIndex, raw: string, k: string, pid: PID): PatternIndex
  {
    byPattern[raw := (if raw in byPattern then byPattern[raw] else map[])[k := pid]]
  }

  function DropFrom(byPattern: PatternIndex, raw: string, k: string): PatternIndex
    requires raw in byPattern
  {
    if byPattern[raw] - {k} == map[] then byPattern - {raw} else byPattern[raw := byPattern[raw] - {k}]
  }

  function AddKey(bySubscriber: SubscriberIndex, k: string, raw: string): SubscriberIndex
  {
    bySubscriber[k := (if k in bySubscriber then bySubscriber[k] else {}) + {raw}]
  }

  function DropKey(bySubscriber: SubscriberIndex, k: string, raw: string): SubscriberIndex
    requires k in bySubscriber
  {
    if bySubscriber[k] - {raw} == {} then bySubscriber - {k} else bySubscriber[k := bySubscriber[k] - {raw}]
  }

  lemma AddToHas(byPattern: PatternIndex, raw: string, k: string, pid: PID, r: string, j: string)
    ensures Has(AddTo(byPattern, raw, k, pid), r, j) <==> Has(byPattern, r, j) || (r, j) == (raw, k)
  {}

  lemma AddToAt(byPattern: PatternIndex, raw: string, k: string, pid: PID, r: string, j: string)
    requires Has(AddTo(byPattern, raw, k, pid), r, j)
    ensures (r, j) == (raw, k) ==> AddTo(byPattern, raw, k, pid)[r][j] == pid
    ensures (r, j) != (raw, k) ==> Has(byPattern, r, j) && AddTo(byPattern, raw, k, pid)[r][j] == byPattern[r][j]
  {}

  lemma HasIsPair(byPattern: PatternIndex, raw: string, k: string)
    ensures Has(byPattern, raw, k) <==> (raw, k) in Subs(byPattern)
  {}

  lemma AddKeyHas(bySubscriber: SubscriberIndex, k: string, raw: string, r: string, j: string)
    ensures HasKey(AddKey(bySubscriber, k, raw), j, r) <==> HasKey(bySubscriber, j, r) || (r, j) == (raw, k)
  {}

  lemma AddKeeps(byPattern: PatternIndex, bySubscriber: SubscriberIndex, raw: string, k: string, pid: PID)
    requires Consistent(byPattern, bySubscriber)
    ensures Consistent(AddTo(byPattern, raw, k, pid), AddKey(bySubscriber, k, raw))
    ensures Subs(AddTo(byPattern, raw, k, pid)) == Subs(byPattern) + {(raw, k)}
  {
    var p' := AddTo(byPattern, raw, k, pid);
    assert k in p'[raw];
    forall r, j ensures Has(p', r, j) <==> HasKey(AddKey(bySubscriber, k, raw), j, r) {
      AddToHas(byPattern, raw, k, pid, r, j);
      AddKeyHas(bySubscriber, k, raw, r, j);
    }
    forall s ensures s in Subs(p') <==> s in Subs(byPattern) + {(raw, k)} {
      AddToHas(byPattern, raw, k, pid, s.0, s.1);
    }
  }

  lemma DropFromHas(byPattern: PatternIndex, raw: string, k: string, r: string, j: string)
    requires raw in byPattern
    ensures Has(DropFrom(byPattern, raw, k), r, j) <==> Has(byPattern, r, j) && (r, j) != (raw, k)
  {
    if r == raw && j != k && j in byPattern[raw] {
      assert j in byPattern[raw] - {k};
    }
  }

  lemma DropKeyHas(bySubscriber: SubscriberIndex, k: string, raw: string, r: string, j: string)
    requires k in bySubscriber
    ensures HasKey(DropKey(bySubscriber, k, raw), j, r) <==> HasKey(bySubscriber, j, r) && (r, j) != (raw, k)
  {
    if j == k && r != raw && r in bySubscriber[k] {
      assert r in bySubscriber[k] - {raw};
    }
  }

  lemma DropKeeps(byPattern: PatternIndex, bySubscriber: SubscriberIndex, raw: string, k: string)
    requires Consistent(byPattern, bySubscriber) && Has(byPattern, raw, k)
    ensures k in bySubscriber && Consistent(DropFrom(byPattern, raw, k), DropKey(bySubscriber, k, raw))
    ensures Subs(DropFrom(byPattern, raw, k)) == Subs(byPattern) - {(raw, k)}
  {
    assert HasKey(bySubscriber, k, raw);
    var p' := DropFrom(byPattern, raw, k);
    forall r, j ensures Has(p', r, j) <==> HasKey(DropKey(bySubscriber, k, raw), j, r) {
      DropFromHas(byPattern, raw, k, r, j);
      DropKeyHas(bySubscriber, k, raw, r, j);
    }
    forall s ensures s in Subs(p') <==> s in Subs(byPattern) - {(raw, k)} {
      DropFromHas(byPattern, raw, k, s.0, s.1);
    }
  }

  /** "First subscriber" is "the pattern was absent". */
  lemma FirstIsAlone(byPattern: PatternIndex, bySubscriber: SubscriberIndex, raw: string, k: string, pid: PID)
    requires Consistent(byPattern, bySubscriber)
    ensures !Has(byPattern, raw, k) && |AddTo(byPattern, raw, k, pid)[raw]| == 1 <==> raw !in byPattern
  {
    if raw in byPattern && k !in byPattern[raw] {
      assert AddTo(byPattern, raw, k, pid)[raw].Keys == byPattern[raw].Keys + {k};
      var j :| j in byPattern[raw];
      assert |byPattern[raw].Keys| > 0;
    } else if raw !in byPattern {
      assert AddTo(byPattern, raw, k, pid)[raw].Keys == {k};
    }
  }

  /** A pattern is present just while it has a subscriber. */
  lemma PatternsAreSubscribed(byPattern: PatternIndex, bySubscriber: SubscriberIndex, raw: string)
    requires Consistent(byPattern, bySubscriber)
    ensures raw in byPattern <==> exists k :: (raw, k) in Subs(byPattern)
  {
    if raw in byPattern {
      assert byPattern[raw] != map[];
      var k :| k in byPattern[raw];
      assert (raw, k) in Subs(byPattern);
    }
  }

  // --- the entries of the trie ---

  ghost predicate AllKeyed(byPattern: PatternIndex)
  {
    forall raw :: raw in byPattern ==> Keyed(byPattern[raw])
  }

  lemma AddKeepsKeyed(byPattern: PatternIndex, raw: string, k: string, pid: PID)
    requires AllKeyed(byPattern) && pid.Key() == k
    ensures AllKeyed(AddTo(byPattern, raw, k, pid))
  {
    assert raw in byPattern ==> Keyed(byPattern[raw]);
  }

  lemma DropKeepsKeyed(byPattern: PatternIndex, raw: string, k: string)
    requires AllKeyed(byPattern) && raw in byPattern
    ensures AllKeyed(DropFrom(byPattern, raw, k))
  {
    assert Keyed(byPattern[raw]);
  }

  /** What a trie records for subscribers of a pattern. */
  ghost function EntriesFor(segs: seq<string>, keys: set<string>): set<Entry>
  {
    if EndsWith(segs, "+") then {} else set k | k in keys :: EntryOf(segs, k)
  }

  lemma EntriesForAdd(segs: seq<string>, keys: set<string>, k: string)
    ensures EntriesFor(segs, keys + {k}) == EntriesFor(segs, keys) + if EndsWith(segs, "+") then {} else {EntryOf(segs, k)}
  {
    assert k in keys + {k};
  }

  lemma EntriesForNext(base: set<Entry>, segs: seq<string>, keys: set<string>, todo: set<string>, k: string)
    requires k in todo && todo <= keys
    ensures base + EntriesFor(segs, keys - (todo - {k})) == base + EntriesFor(segs, keys - todo) + EntriesFor(segs, {k})
  {
    EntriesForAdd(segs, keys - todo, k);
    EntriesForAdd(segs, {}, k);
    assert keys - todo + {k} == keys - (todo - {k});
  }

  /** The entries of one pattern. */
  ghost function PatternEntries(raw: string, keys: set<string>): set<Entry>
  {
    if ParseTopicPattern(raw).Ok? then EntriesFor(Split(raw), keys) else {}
  }

  /** The entries of the patterns in done. */
  ghost function EntriesOf(byPattern: PatternIndex, done: set<string>): set<Entry>
  {
    Entries(set s | s in Subs(byPattern) && s.0 in done)
  }

  lemma EntriesAdd(subs: set<(string, string)>, raw: string, k: string)
    ensures Entries(subs + {(raw, k)}) == Entries(subs) + PatternEntries(raw, {k})
  {
    var s := (raw, k);
    assert Recordable(raw) ==> EntryOf(Split(s.0), s.1) in Entries(subs + {s});
    forall e | e in Entries(subs) + PatternEntries(raw, {k}) ensures e in Entries(subs + {s}) {
      if e in Entries(subs) {
        var t :| t in subs && Recordable(t.0) && e == EntryOf(Split(t.0), t.1);
        assert t in subs + {s};
      }
    }
  }

  lemma EntriesOfMore(byPattern: PatternIndex, done: set<string>, raw: string)
    requires raw in byPattern
    ensures EntriesOf(byPattern, done + {raw}) == EntriesOf(byPattern, done) + PatternEntries(raw, byPattern[raw].Keys)
  {
    var before, after := (set s | s in Subs(byPattern) && s.0 in done), (set s | s in Subs(byPattern) && s.0 in done + {raw});
    forall e | e in PatternEntries(raw, byPattern[raw].Keys) ensures e in Entries(after) {
      var k :| k in byPattern[raw].Keys && e == EntryOf(Split(raw), k);
      assert (raw, k) in after;
    }
    forall e | e in Entries(after) ensures e in Entries(before) + PatternEntries(raw, byPattern[raw].Keys) {
      var t :| t in after && Recordable(t.0) && e == EntryOf(Split(t.0), t.1);
      assert t in before || (t.0 == raw && t.1 in byPattern[raw].Keys);
    }
    forall e | e in Entries(before) ensures e in Entries(after) {
      var t :| t in before && Recordable(t.0) && e == EntryOf(Split(t.0), t.1);
      assert t in after;
    }
  }

  lemma EntriesOfNext(byPattern: PatternIndex, todo: set<string>, raw: string)
    requires raw in todo && todo <= byPattern.Keys
    ensures EntriesOf(byPattern, byPattern.Keys - (todo - {raw})) ==
            EntriesOf(byPattern, byPattern.Keys - todo) + PatternEntries(raw, byPattern[raw].Keys)
  {
    EntriesOfMore(byPattern, byPattern.Keys - todo, raw);
    assert byPattern.Keys - todo + {raw} == byPattern.Keys - (todo - {raw});
  }

  lemma EntriesOfAll(byPattern: PatternIndex)
    ensures EntriesOf(byPattern, byPattern.Keys) == Entries(Subs(byPattern))
  {
    assert (set s | s in Subs(byPattern) && s.0 in byPattern.Keys) == Subs(byPattern);
  }

  // --- the PIDs of the trie ---

  type Told = map<(string, string), PID>

  /** The PIDs of the pattern index. */
  ghost function Current(byPattern: PatternIndex): (told: Told)
    ensures told.Keys == Subs(byPattern)
  {
    map s | s in Subs(byPattern) :: byPattern[s.0][s.1]
  }

  ghost predicate Holding(held: map<Entry, PID>, s: (string, string), pid: PID)
  {
    Recordable(s.0) ==> EntryOf(Split(s.0), s.1) in held && held[EntryOf(Split(s.0), s.1)] == pid
  }

  /** The trie holds what it was told of the subscriptions in done. */
  ghost predicate HeldFor(held: map<Entry, PID>, told: Told, done: set<(string, string)>)
  {
    forall s {:trigger Holding(held, s, told[s])} :: s in done && s in told ==> Holding(held, s, told[s])
  }

  lemma {:induction false} PathInjective(a: seq<string>, b: seq<string>)
    requires PathOf(a) == PathOf(b)
    ensures a == b
  {
    if a != [] && b != [] {
      var m, n := |a| - 1, |b| - 1;
      PathInjective(a[..m], b[..n]);
      assert a == a[..m] + [a[m]] && b == b[..n] + [b[n]];
    }
  }

  /** Different subscriptions have different entries. */
  lemma EntryInjective(s: (string, string), t: (string, string))
    requires EntryOf(Split(s.0), s.1) == EntryOf(Split(t.0), t.1)
    ensures s == t
  {
    var a, b := Split(s.0), Split(t.0);
    if EndsWith(a, "#") {
      PathInjective(a[..|a| - 1], b[..|b| - 1]);
      assert a == a[..|a| - 1] + ["#"] && b == b[..|b| - 1] + ["#"];
    } else {
      PathInjective(a, b);
    }
    SplitJoin(s.0);
    SplitJoin(t.0);
  }

  lemma HeldMore(held: map<Entry, PID>, told: Told, done: set<(string, string)>, s: (string, string), held': map<Entry, PID>)
    requires HeldFor(held, told, done) && s in told && ParseTopicPattern(s.0).Ok?
    requires held' == if EndsWith(Split(s.0), "+") then held else held[EntryOf(Split(s.0), s.1) := told[s]]
    ensures HeldFor(held', told, done + {s})
  {
    forall t | t in done + {s} && t in told ensures Holding(held', t, told[t]) {
      if t != s {
        assert Holding(held, t, told[t]);
        if EntryOf(Split(s.0), s.1) == EntryOf(Split(t.0), t.1) { EntryInjective(s, t); }
      }
    }
  }

  lemma HeldSame(held: map<Entry, PID>, told: Told, done: set<(string, string)>, told': Told, done': set<(string, string)>)
    requires HeldFor(held, told, done)
    requires forall s :: s in done' && s in told' ==> (s in done && s in told && told[s] == told'[s]) || !Recordable(s.0)
    ensures HeldFor(held, told', done')
  {
    forall s | s in done' && s in told' ensures Holding(held, s, told'[s]) {
      if Recordable(s.0) { assert Holding(held, s, told[s]); }
    }
  }

  // --- announcements ---

  /** The calls of pubsubOnSubscribe and pubsubOnUnsubscribe. */
  datatype Note = Gained(pattern: string) | Lost(pattern: string)

  /** Patterns gained and not lost since. */
  ghost function Announced(log: seq<Note>): set<string>
  {
    if log == [] then {}
    else
      var last, before := log[|log| - 1], Announced(log[..|log| - 1]);
      if last.Gained? then before + {last.pattern} else before - {last.pattern}
  }

  /** A pattern is only gained while not announced and only lost while announced. */
  ghost predicate Alternates(log: seq<Note>)
  {
    log == [] ||
      var last, init := log[|log| - 1], log[..|log| - 1];
      Alternates(init) && (last.Gained? <==> last.pattern !in Announced(init))
  }

  lemma NoteTaken(log: seq<Note>, note: Note)
    requires Alternates(log) && (note.Gained? <==> note.pattern !in Announced(log))
    ensures Alternates(log + [note])
    ensures Announced(log + [note]) == if note.Gained? then Announced(log) + {note.pattern} else Announced(log) - {note.pattern}
  {
    assert (log + [note])[..|log|] == log;
  }

  lemma {:induction false} AlternatesPrefix(log: seq<Note>, n: nat)
    requires Alternates(log) && n <= |log|
    ensures Alternates(log[..n])
  {
    if n < |log| {
      AlternatesPrefix(log[..|log| - 1], n);
      assert log[..|log| - 1][..n] == log[..n];
    } else {
      assert log[..n] == log;
    }
  }

  /** The last note about a pattern decides whether it is announced. */
  lemma {:induction false} LastNoteDecides(log: seq<Note>, i: nat)
    requires i < |log| && forall j :: i < j < |log| ==> log[j].pattern != log[i].pattern
    ensures log[i].pattern in Announced(log) <==> log[i].Gained?
  {
    if i < |log| - 1 {
      LastNoteDecides(log[..|log| - 1], i);
      assert log[|log| - 1].pattern != log[i].pattern;
    }
  }

  /** Consecutive notes about one pattern are of different kinds. */
  lemma NotesAlternate(log: seq<Note>, i: nat, j: nat)
    requires Alternates(log) && i < j < |log| && log[i].pattern == log[j].pattern
    requires forall m :: i < m < j ==> log[m].pattern != log[i].pattern
    ensures log[i].Gained? <==> log[j].Lost?
  {
    AlternatesPrefix(log, j + 1);
    assert log[..j + 1][..j] == log[..j];
    LastNoteDecides(log[..j], i);
  }

  // --- the service ---

  datatype Outcome = InvalidCommand | InvalidPattern | Subscribed | Unsubscribed | NotFound

  method InsertKeyed(trie: SubscriptionTrie, segs: seq<string>, k: string, pid: PID,
                     ghost raw: string, ghost told: Told, ghost done: set<(string, string)>)
    requires trie.Valid() && ParseTopicPattern(raw) == Ok(segs) && pid.Key() == k
    requires (raw, k) in told && told[(raw, k)] == pid && HeldFor(trie.model.held, told, done)
    modifies trie, trie.nodes
    ensures trie.Valid() && (forall n :: n in trie.nodes ==> n in old(trie.nodes) || fresh(n))
    ensures trie.model.recorded == old(trie.model.recorded) + EntriesFor(segs, {k})
    ensures HeldFor(trie.model.held, told, done + {(raw, k)})
  {
    EntriesForAdd(segs, {}, k);
    trie.Insert(segs, pid);
    HeldMore(old(trie.model.held), told, done, (raw, k), trie.model.held);
  }

  ghost function PairsOf(raw: string, keys: set<string>): set<(string, string)> { set k | k in keys :: (raw, k) }

  lemma PairsOfNext(done: set<(string, string)>, raw: string, keys: set<string>, todo: set<string>, k: string)
    requires k in todo && todo <= keys
    ensures done + PairsOf(raw, keys - todo) + {(raw, k)} == done + PairsOf(raw, keys - (todo - {k}))
  {
    assert k in keys - (todo - {k});
    forall s | s in PairsOf(raw, keys - todo) ensures s in PairsOf(raw, keys - (todo - {k})) {
      assert s.1 in keys - (todo - {k});
    }
  }

  method InsertAll(trie: SubscriptionTrie, segs: seq<string>, subscribers: map<string, PID>,
                   ghost raw: string, ghost told: Told, ghost done: set<(string, string)>)
    requires trie.Valid() && ParseTopicPattern(raw) == Ok(segs) && Keyed(subscribers)
    requires (forall k :: k in subscribers ==> (raw, k) in told && told[(raw, k)] == subscribers[k]) && HeldFor(trie.model.held, told, done)
    modifies trie, trie.nodes
    ensures trie.Valid() && (forall n :: n in trie.nodes ==> n in old(trie.nodes) || fresh(n))
    ensures trie.model.recorded == old(trie.model.recorded) + EntriesFor(segs, subscribers.Keys)
    ensures HeldFor(trie.model.held, told, done + PairsOf(raw, subscribers.Keys))
  {
    var keys := subscribers.Keys;
    assert done + PairsOf(raw, {}) == done;
    while keys != {}
      invariant keys <= subscribers.Keys
      invariant trie.Valid() && (forall n :: n in trie.nodes ==> n in old(trie.nodes) || fresh(n))
      invariant trie.model.recorded == old(trie.model.recorded) + EntriesFor(segs, subscribers.Keys - keys)
      invariant HeldFor(trie.model.held, told, done + PairsOf(raw, subscribers.Keys - keys))
    {
      var k :| k in keys;
      EntriesForNext(old(trie.model.recorded), segs, subscribers.Keys, keys, k);
      PairsOfNext(done, raw, subscribers.Keys, keys, k);
      InsertKeyed(trie, segs, k, subscribers[k], raw, told, done + PairsOf(raw, subscribers.Keys - keys));
      keys := keys - {k};
    }
    assert subscribers.Keys - keys == subscribers.Keys;
  }

  /** One round of the rebuild: a pattern that does not parse is passed over. */
  method InsertPattern(trie: SubscriptionTrie, raw: string, subscribers: map<string, PID>,
                       ghost told: Told, ghost done: set<(string, string)>)
    requires trie.Valid() && Keyed(subscribers)
    requires (forall k :: k in subscribers ==> (raw, k) in told && told[(raw, k)] == subscribers[k]) && HeldFor(trie.model.held, told, done)
    modifies trie, trie.nodes
    ensures trie.Valid() && (forall n :: n in trie.nodes ==> n in old(trie.nodes) || fresh(n))
    ensures trie.model.recorded == old(trie.model.recorded) + PatternEntries(raw, subscribers.Keys)
    ensures HeldFor(trie.model.held, told, done + PairsOf(raw, subscribers.Keys))
  {
    var p := ParseTopicPattern(raw);
    if p.Ok? {
      InsertAll(trie, p.value, subscribers, raw, told, done);
    } else {
      HeldSame(trie.model.held, told, done, told, done + PairsOf(raw, subscribers.Keys));
    }
  }

  ghost function PairsIn(index: PatternIndex, raws: set<string>): set<(string, string)> { set s | s in Subs(index) && s.0 in raws }

  lemma PairsInNext(index: PatternIndex, todo: set<string>, raw: string)
    requires raw in todo && todo <= index.Keys
    ensures PairsIn(index, index.Keys - (todo - {raw})) == PairsIn(index, index.Keys - todo) + PairsOf(raw, index[raw].Keys)
  {
    forall k | k in index[raw] ensures (raw, k) in Subs(index) { assert Has(index, raw, k); }
    assert raw in index.Keys - (todo - {raw});
  }

  /** Builds the trie afresh from the pattern index, in any order. */
  method BuildTrie(index: PatternIndex) returns (trie: SubscriptionTrie)
    requires AllKeyed(index)
    ensures trie.Valid() && fresh(trie) && (forall n :: n in trie.nodes ==> fresh(n))
    ensures trie.model.recorded == Entries(Subs(index)) && HeldFor(trie.model.held, Current(index), Subs(index))
  {
    trie := new SubscriptionTrie();
    var todo := index.Keys;
    while todo != {}
      invariant todo <= index.Keys
      invariant trie.Valid() && fresh(trie) && (forall n :: n in trie.nodes ==> fresh(n))
      invariant trie.model.recorded == EntriesOf(index, index.Keys - todo)
      invariant HeldFor(trie.model.held, Current(index), PairsIn(index, index.Keys - todo))
    {
      var raw :| raw in todo;
      EntriesOfNext(index, todo, raw);
      PairsInNext(index, todo, raw);
      forall k | k in index[raw] ensures (raw, k) in Subs(index) { assert Has(index, raw, k); }
      InsertPattern(trie, raw, index[raw], Current(index), PairsIn(index, index.Keys - todo));
      todo := todo - {raw};
    }
    EntriesOfAll(index);
    assert PairsIn(index, index.Keys - todo) == Subs(index);
  }

  /** What the broker knows, as a value; told is what the trie was told of each subscription. */
  datatype Book = Book(byPattern: PatternIndex, bySubscriber: SubscriberIndex, log: seq<Note>, told: Told)
  {
    ghost predicate Ok()
    {
      && Consistent(byPattern, bySubscriber) && AllKeyed(byPattern)
      && Alternates(log) && Announced(log) == byPattern.Keys && told.Keys == Subs(byPattern)
    }

    ghost function Pairs(): set<(string, string)> { Subs(byPattern) }
  }

  ghost function Enrolled(b: Book, pattern: string, k: string, pid: PID): Book
  {
    var byPattern, known := AddTo(b.byPattern, pattern, k, pid), Has(b.byPattern, pattern, k);
    Book(byPattern, AddKey(b.bySubscriber, k, pattern),
         if !known && |byPattern[pattern]| == 1 then b.log + [Gained(pattern)] else b.log,
         if known then b.told else b.told[(pattern, k) := pid])
  }

  ghost function Expelled(b: Book, pattern: string, k: string): Book
    requires pattern in b.byPattern && k in b.bySubscriber
  {
    var byPattern := DropFrom(b.byPattern, pattern, k);
    Book(byPattern, DropKey(b.bySubscriber, k, pattern), if pattern in byPattern then b.log else b.log + [Lost(pattern)],
         Current(byPattern))
  }

  /** A subscription adds one pair; the cluster hears of a pattern's first. */
  lemma EnrolledKeeps(b: Book, pattern: string, k: string, pid: PID)
    requires b.Ok() && pid.Key() == k
    ensures Enrolled(b, pattern, k, pid).Ok()
    ensures Enrolled(b, pattern, k, pid).Pairs() == b.Pairs() + {(pattern, k)}
    ensures Enrolled(b, pattern, k, pid).log == b.log + if pattern in b.byPattern then [] else [Gained(pattern)]
  {
    AddKeepsKeyed(b.byPattern, pattern, k, pid);
    FirstIsAlone(b.byPattern, b.bySubscriber, pattern, k, pid);
    EnrolledLog(b, pattern, k, pid);
    AddKeeps(b.byPattern, b.bySubscriber, pattern, k, pid);
    EnrolledTold(b, pattern, k, pid);
  }

  lemma EnrolledTold(b: Book, pattern: string, k: string, pid: PID)
    requires b.told.Keys == Subs(b.byPattern)
    ensures Enrolled(b, pattern, k, pid).told.Keys == Subs(b.byPattern) + {(pattern, k)}
    ensures Enrolled(b, pattern, k, pid).told == if (pattern, k) in b.told then b.told else b.told[(pattern, k) := pid]
  {
    HasIsPair(b.byPattern, pattern, k);
    var told := if (pattern, k) in b.told then b.told else b.told[(pattern, k) := pid];
    assert told.Keys == b.told.Keys + {(pattern, k)};
  }

  lemma EnrolledLog(b: Book, pattern: string, k: string, pid: PID)
    requires Alternates(b.log) && Announced(b.log) == b.byPattern.Keys
    requires !Has(b.byPattern, pattern, k) && |AddTo(b.byPattern, pattern, k, pid)[pattern]| == 1 <==> pattern !in b.byPattern
    ensures var b' := Enrolled(b, pattern, k, pid);
            && b'.log == b.log + (if pattern in b.byPattern then [] else [Gained(pattern)])
            && Alternates(b'.log) && Announced(b'.log) == b'.byPattern.Keys
  {
    if pattern !in b.byPattern { NoteTaken(b.log, Gained(pattern)); }
  }

  lemma EnrolledEntries(b: Book, pattern: string, k: string, pid: PID)
    requires b.Ok() && pid.Key() == k
    ensures Entries(Enrolled(b, pattern, k, pid).Pairs()) ==
            Entries(b.Pairs()) + if Has(b.byPattern, pattern, k) then {} else PatternEntries(pattern, {k})
  {
    EnrolledKeeps(b, pattern, k, pid);
    EntriesAdd(b.Pairs(), pattern, k);
    if Has(b.byPattern, pattern, k) { assert b.Pairs() + {(pattern, k)} == b.Pairs(); }
  }

  /** An unsubscription takes one pair away; the cluster hears of a pattern's last. */
  lemma ExpelledKeeps(b: Book, pattern: string, k: string)
    requires b.Ok() && Has(b.byPattern, pattern, k)
    ensures k in b.bySubscriber && Expelled(b, pattern, k).Ok()
    ensures Expelled(b, pattern, k).Pairs() == b.Pairs() - {(pattern, k)}
  {
    DropKeeps(b.byPattern, b.bySubscriber, pattern, k);
    DropKeepsKeyed(b.byPattern, pattern, k);
    if pattern !in DropFrom(b.byPattern, pattern, k) { NoteTaken(b.log, Lost(pattern)); }
  }

  datatype Command = Sub(isAsk: bool, pattern: string, pid: PID) | Unsub(isAsk: bool, pattern: string, pid: PID)
  {
    predicate Accepted() { isAsk && ParseTopicPattern(pattern).Ok? }

    function Pair(): (string, string) { (pattern, pid.Key()) }
  }

  ghost function Apply(b: Book, c: Command): Book
  {
    var k := c.pid.Key();
    if !c.Accepted() then b
    else if c.Sub? then Enrolled(b, c.pattern, k, c.pid)
    else if Has(b.byPattern, c.pattern, k) && k in b.bySubscriber then Expelled(b, c.pattern, k)
    else b
  }

  ghost function ApplyAll(cmds: seq<Command>): Book
  {
    if cmds == [] then Book(map[], map[], [], map[]) else Apply(ApplyAll(cmds[..|cmds| - 1]), cmds[|cmds| - 1])
  }

  /** The last accepted command about the pair was a subscription. */
  predicate Wanted(cmds: seq<Command>, pair: (string, string))
  {
    cmds != [] &&
      var c := cmds[|cmds| - 1];
      if c.Accepted() && c.Pair() == pair then c.Sub? else Wanted(cmds[..|cmds| - 1], pair)
  }

  lemma ApplyKeeps(b: Book, c: Command)
    requires b.Ok()
    ensures Apply(b, c).Ok()
    ensures forall p :: p in Apply(b, c).Pairs() <==> if c.Accepted() && c.Pair() == p then c.Sub? else p in b.Pairs()
  {
    var k := c.pid.Key();
    if c.Sub? {
      EnrolledKeeps(b, c.pattern, k, c.pid);
    } else if Has(b.byPattern, c.pattern, k) {
      ExpelledKeeps(b, c.pattern, k);
    }
  }

  /** Every run leaves consistent indexes that hold exactly the pairs last subscribed, and
      has announced exactly the patterns that still have a subscriber. */
  lemma {:induction false} RunKeeps(cmds: seq<Command>)
    ensures ApplyAll(cmds).Ok()
    ensures forall p :: p in ApplyAll(cmds).Pairs() <==> Wanted(cmds, p)
    ensures forall raw :: raw in Announced(ApplyAll(cmds).log) <==> exists k :: Wanted(cmds, (raw, k))
  {
    var b := ApplyAll(cmds);
    if cmds != [] {
      RunKeeps(cmds[..|cmds| - 1]);
      ApplyKeeps(ApplyAll(cmds[..|cmds| - 1]), cmds[|cmds| - 1]);
    }
    forall raw ensures raw in Announced(b.log) <==> exists k :: Wanted(cmds, (raw, k)) {
      PatternsAreSubscribed(b.byPattern, b.bySubscriber, raw);
      assert forall k :: (raw, k) in b.Pairs() <==> Wanted(cmds, (raw, k));
    }
  }

  // --- which PID a subscriber is reached under ---

  /** The PID of the pair's last subscription. */
  function Latest(cmds: seq<Command>, pair: (string, string)): Option<PID>
  {
    if cmds == [] then None
    else
      var c := cmds[|cmds| - 1];
      if !c.Accepted() || c.Pair() != pair then Latest(cmds[..|cmds| - 1], pair) else if c.Sub? then Some(c.pid) else None
  }

  /** The PID the trie was told: that of the first subscription since the pair came up, or the
      last one before somebody's unsubscription had the trie rebuilt. */
  function Written(cmds: seq<Command>, pair: (string, string)): Option<PID>
  {
    if cmds == [] then None
    else
      var init, c := cmds[..|cmds| - 1], cmds[|cmds| - 1];
      var before := Written(init, pair);
      if !c.Accepted() then before
      else if c.Sub? then if c.Pair() == pair && before.None? then Some(c.pid) else before
      else if c.Pair() == pair then None
      else if Wanted(init, c.Pair()) then Latest(init, pair)
      else before
  }

  ghost predicate TellsAt(b: Book, cmds: seq<Command>, pair: (string, string))
  {
    && (pair in b.told <==> Written(cmds, pair).Some?) && (pair in b.Pairs() <==> Latest(cmds, pair).Some?)
    && (pair in b.told ==> Written(cmds, pair) == Some(b.told[pair]))
    && (Has(b.byPattern, pair.0, pair.1) ==> Latest(cmds, pair) == Some(b.byPattern[pair.0][pair.1]))
  }

  lemma EnrolledTells(b: Book, cmds: seq<Command>, c: Command, pair: (string, string))
    requires b.Ok() && c.Accepted() && c.Sub? && TellsAt(b, cmds, pair)
    ensures TellsAt(Enrolled(b, c.pattern, c.pid.Key(), c.pid), cmds + [c], pair)
  {
    var k := c.pid.Key();
    var b' := Enrolled(b, c.pattern, k, c.pid);
    EnrolledKeeps(b, c.pattern, k, c.pid);
    EnrolledTold(b, c.pattern, k, c.pid);
    HasIsPair(b'.byPattern, pair.0, pair.1);
    HasIsPair(b.byPattern, pair.0, pair.1);
    if Has(b'.byPattern, pair.0, pair.1) { AddToAt(b.byPattern, c.pattern, k, c.pid, pair.0, pair.1); }
    SubTells(cmds, c, pair);
  }

  lemma SubTells(cmds: seq<Command>, c: Command, pair: (string, string))
    requires c.Accepted() && c.Sub?
    ensures Latest(cmds + [c], pair) == if c.Pair() == pair then Some(c.pid) else Latest(cmds, pair)
    ensures Written(cmds + [c], pair) == if c.Pair() == pair && Written(cmds, pair).None? then Some(c.pid) else Written(cmds, pair)
  {
    assert (cmds + [c])[..|cmds|] == cmds;
  }

  lemma ExpelledTells(b: Book, cmds: seq<Command>, c: Command, pair: (string, string))
    requires b.Ok() && c.Accepted() && c.Unsub? && Has(b.byPattern, c.pattern, c.pid.Key()) && Wanted(cmds, c.Pair())
    requires TellsAt(b, cmds, pair) && c.pid.Key() in b.bySubscriber
    ensures TellsAt(Expelled(b, c.pattern, c.pid.Key()), cmds + [c], pair)
  {
    var k := c.pid.Key();
    var b' := Expelled(b, c.pattern, k);
    ExpelledKeeps(b, c.pattern, k);
    HasIsPair(b'.byPattern, pair.0, pair.1);
    HasIsPair(b.byPattern, pair.0, pair.1);
    DropFromAt(b.byPattern, c.pattern, k, pair.0, pair.1);
    UnsubTells(cmds, c, pair);
  }

  lemma DropFromAt(byPattern: PatternIndex, raw: string, k: string, r: string, j: string)
    requires raw in byPattern
    ensures Has(DropFrom(byPattern, raw, k), r, j) ==> Has(byPattern, r, j) && DropFrom(byPattern, raw, k)[r][j] == byPattern[r][j]
  {}

  lemma UnsubTells(cmds: seq<Command>, c: Command, pair: (string, string))
    requires c.Accepted() && c.Unsub? && Wanted(cmds, c.Pair())
    ensures Latest(cmds + [c], pair) == if c.Pair() == pair then None else Latest(cmds, pair)
    ensures Written(cmds + [c], pair) == if c.Pair() == pair then None else Latest(cmds, pair)
  {
    assert (cmds + [c])[..|cmds|] == cmds;
  }

  lemma OtherTells(b: Book, cmds: seq<Command>, c: Command, pair: (string, string))
    requires b.Ok() && TellsAt(b, cmds, pair) && (!c.Accepted() || (c.Unsub? && c.Pair() !in b.Pairs() && !Wanted(cmds, c.Pair())))
    ensures TellsAt(b, cmds + [c], pair)
  {
    assert (cmds + [c])[..|cmds|] == cmds;
  }

  /** In every run the index has the PID of each pair's last subscription, and the trie the one
      that was written to it. */
  lemma {:induction false} ToldExact(cmds: seq<Command>, pair: (string, string))
    ensures TellsAt(ApplyAll(cmds), cmds, pair)
  {
    if cmds != [] {
      var init, c := cmds[..|cmds| - 1], cmds[|cmds| - 1];
      var b, k := ApplyAll(init), c.pid.Key();
      assert cmds == init + [c];
      RunKeeps(init);
      ToldExact(init, pair);
      if c.Accepted() && c.Sub? {
        EnrolledTells(b, init, c, pair);
      } else if c.Accepted() && Has(b.byPattern, c.pattern, k) {
        ExpelledKeeps(b, c.pattern, k);
        assert c.Pair() in b.Pairs();
        ExpelledTells(b, init, c, pair);
      } else {
        OtherTells(b, init, c, pair);
      }
    }
  }

  ghost predicate UpToDate(cmds: seq<Command>, pair: (string, string)) { Written(cmds, pair) == Latest(cmds, pair) }

  /** A subscriber that is up to date ceases to be so exactly by subscribing again with another
      PID of the same key; somebody's unsubscription brings everybody up to date. */
  lemma StaleExactly(cmds: seq<Command>, c: Command, pair: (string, string))
    requires UpToDate(cmds, pair)
    ensures !UpToDate(cmds + [c], pair) <==>
            c.Accepted() && c.Sub? && c.Pair() == pair && Latest(cmds, pair).Some? && Latest(cmds, pair).value != c.pid
  {
    assert (cmds + [c])[..|cmds|] == cmds;
  }

  lemma RebuildHeals(cmds: seq<Command>, c: Command, pair: (string, string))
    requires c.Accepted() && c.Unsub? && Wanted(cmds, c.Pair())
    ensures UpToDate(cmds + [c], pair)
  {
    assert (cmds + [c])[..|cmds|] == cmds;
  }

  /** An actor that has restarted and subscribes again under its new generation goes on being
      published to under the old one. */
  lemma ResubscriptionIsNotTold(raw: string, ns: string, a: string, n: nat)
    requires ParseTopicPattern(raw).Ok?
    ensures var p, q := PID(ns, a, n), PID(ns, a, n + 1);
            var b := ApplyAll([Sub(true, raw, p), Sub(true, raw, q)]);
            && Has(b.byPattern, raw, q.Key()) && b.byPattern[raw][q.Key()] == q
            && (raw, q.Key()) in b.told && b.told[(raw, q.Key())] == p
  {
    var p, q := PID(ns, a, n), PID(ns, a, n + 1);
    var c, d := Sub(true, raw, p), Sub(true, raw, q);
    var cmds, pair := [c, d], (raw, q.Key());
    assert [] + [c] == [c] && [c] + [d] == cmds;
    SubTells([], c, pair);
    SubTells([c], d, pair);
    ToldExact(cmds, pair);
    RunKeeps(cmds);
  }

  // --- delivery ---

  /** Subscribers of a pattern that matches. */
  ghost function Matching(subs: set<(string, string)>, topic: seq<string>): set<string>
  {
    set s | s in subs && Matches(Split(s.0), topic) :: s.1
  }

  /** Subscribers the broker delivers to. */
  ghost function Reached(subs: set<(string, string)>, topic: seq<string>): set<string>
  {
    set s | s in subs && Recordable(s.0) && Matches(Split(s.0), topic) :: s.1
  }

  /** The trie was told this PID for one of the subscriptions of k that match. */
  ghost predicate ToldTo(b: Book, topic: seq<string>, k: string, pid: PID)
  {
    exists raw :: (raw, k) in b.told && Recordable(raw) && Matches(Split(raw), topic) && b.told[(raw, k)] == pid
  }

  lemma HeldIsTold(b: Book, held: map<Entry, PID>, e: Entry, topic: seq<string>)
    requires held.Keys == Entries(b.Pairs()) && b.told.Keys == b.Pairs() && HeldFor(held, b.told, b.Pairs()) && e in held
    requires EntryMatches(e, topic)
    ensures ToldTo(b, topic, e.key, held[e])
  {
    var s :| s in b.Pairs() && Recordable(s.0) && e == EntryOf(Split(s.0), s.1);
    assert s == (s.0, s.1);
    assert Holding(held, s, b.told[s]);
    EntryIsPattern(Split(s.0), s.1, topic);
  }

  lemma AllTold(b: Book, held: map<Entry, PID>, targets: map<string, PID>, topic: seq<string>)
    requires held.Keys == Entries(b.Pairs()) && b.told.Keys == b.Pairs() && HeldFor(held, b.told, b.Pairs())
    requires forall k :: k in targets ==> exists e :: e in held && e.key == k && EntryMatches(e, topic) && held[e] == targets[k]
    ensures forall k :: k in targets ==> ToldTo(b, topic, k, targets[k])
  {
    forall k | k in targets ensures ToldTo(b, topic, k, targets[k]) {
      var e :| e in held && e.key == k && EntryMatches(e, topic) && held[e] == targets[k];
      HeldIsTold(b, held, e, topic);
    }
  }

  lemma ReachedByEntries(subs: set<(string, string)>, topic: seq<string>, k: string)
    ensures k in Reached(subs, topic) <==> exists e :: e in Entries(subs) && e.key == k && EntryMatches(e, topic)
  {
    if k in Reached(subs, topic) {
      var s :| s in subs && Recordable(s.0) && Matches(Split(s.0), topic) && s.1 == k;
      EntryIsPattern(Split(s.0), k, topic);
      assert EntryOf(Split(s.0), s.1) in Entries(subs);
    }
    if exists e :: e in Entries(subs) && e.key == k && EntryMatches(e, topic) {
      var e :| e in Entries(subs) && e.key == k && EntryMatches(e, topic);
      var s :| s in subs && Recordable(s.0) && e == EntryOf(Split(s.0), s.1);
      EntryIsPattern(Split(s.0), k, topic);
    }
  }

  lemma AllReached(subs: set<(string, string)>, topic: seq<string>)
    ensures forall k :: k in Reached(subs, topic) <==> exists e :: e in Entries(subs) && e.key == k && EntryMatches(e, topic)
  {
    forall k: string { ReachedByEntries(subs, topic, k); }
  }

  /** A topic that a pattern without `#` matches: any segment for each `+`. */
  function Example(segs: seq<string>): (topic: seq<string>)
    ensures |topic| == |segs|
    ensures forall i :: 0 <= i < |segs| ==> topic[i] == if segs[i] == "+" then "x" else segs[i]
  {
    seq(|segs|, i requires 0 <= i < |segs| => if segs[i] == "+" then "x" else segs[i])
  }

  lemma ExampleMatches(segs: seq<string>)
    requires ValidPattern(segs) && EndsWith(segs, "+")
    ensures ValidTopic(Example(segs)) && Matches(segs, Example(segs))
  {
    forall i | 0 <= i < |segs|
      ensures SegmentMatches(segs[i], Example(segs)[i])
      ensures Example(segs)[i] != "" && '+' !in Example(segs)[i] && '#' !in Example(segs)[i]
    {
      assert SegmentOk(segs[i], i == |segs| - 1);
    }
  }

  /** A single subscription is served on every topic just when its pattern does not end in `+`. */
  lemma ServedExactly(raw: string, k: string)
    requires ParseTopicPattern(raw).Ok?
    ensures (forall topic :: ValidTopic(topic) ==> Reached({(raw, k)}, topic) == Matching({(raw, k)}, topic)) <==>
            !EndsWith(Split(raw), "+")
  {
    if EndsWith(Split(raw), "+") {
      var topic := Example(Split(raw));
      ExampleMatches(Split(raw));
      assert (raw, k) in {(raw, k)};
      assert k in Matching({(raw, k)}, topic) && k !in Reached({(raw, k)}, topic);
    }
  }

  /** On one topic the broker serves every matching subscriber just when each has a matching
      pattern that does not end in `+`. */
  lemma AllServedExactly(subs: set<(string, string)>, topic: seq<string>)
    requires forall s :: s in subs ==> ParseTopicPattern(s.0).Ok?
    ensures Reached(subs, topic) <= Matching(subs, topic)
    ensures Reached(subs, topic) == Matching(subs, topic) <==>
            forall s :: s in subs && Matches(Split(s.0), topic) && EndsWith(Split(s.0), "+") ==>
              exists t :: t in subs && t.1 == s.1 && Matches(Split(t.0), topic) && !EndsWith(Split(t.0), "+")
  {
    if Reached(subs, topic) == Matching(subs, topic) {
      forall s | s in subs && Matches(Split(s.0), topic) && EndsWith(Split(s.0), "+")
        ensures exists t :: t in subs && t.1 == s.1 && Matches(Split(t.0), topic) && !EndsWith(Split(t.0), "+")
      {
        assert s.1 in Reached(subs, topic);
      }
    }
  }

  /** The pattern `a.+` matches the topic `a.b`, and its subscriber is not served. */
  lemma PlusAtEndIsLost(k: string)
    ensures ParseTopicPattern("a.+") == Ok(["a", "+"]) && ParsePublishTopic("a.b") == Ok(["a", "b"])
    ensures k in Matching({("a.+", k)}, ["a", "b"]) && Reached({("a.+", k)}, ["a", "b"]) == {}
  {
    SplitThree('a', '+');
    SplitThree('a', 'b');
    assert ("a.+", k) in {("a.+", k)};
  }

  lemma SplitThree(a: char, b: char)
    requires a != '.' && b != '.'
    ensures Split([a, '.', b]) == [[a], [b]]
  {
    assert [b][1..] == "" && Split("") == [""];
    assert [b] + "" == [b] && [""][1..] == [];
    assert Split([b]) == [[b]];
    assert ['.', b][1..] == [b];
    assert Split(['.', b]) == [""] + [[b]] == ["", [b]];
    assert [a, '.', b][1..] == ['.', b] && ["", [b]][1..] == [[b]];
    assert [a] + "" == [a];
  }

  class PubSubBroker {
    var trie: SubscriptionTrie
    var byPattern: PatternIndex
    var bySubscriber: SubscriberIndex
    ghost var log: seq<Note>
    ghost var told: Told

    ghost function View(): Book
      reads this
    {
      Book(byPattern, bySubscriber, log, told)
    }

    /** The trie answers for the subscriptions in the indexes. */
    ghost predicate Valid()
      reads this, trie, trie.nodes
    {
      && trie.Valid() && View().Ok() && trie.model.recorded == Entries(View().Pairs())
      && HeldFor(trie.model.held, told, View().Pairs())
    }

    constructor ()
      ensures Valid() && fresh(trie) && (forall n :: n in trie.nodes ==> fresh(n)) && View() == Book(map[], map[], [], map[])
    {
      trie := new SubscriptionTrie();
      byPattern, bySubscriber, log, told := map[], map[], [], map[];
    }

    /** The index half of a subscription. */
    method Enter(pattern: string, key: string, subscriber: PID) returns (known: bool)
      modifies this`byPattern, this`bySubscriber, this`log, this`told
      ensures View() == Enrolled(old(View()), pattern, key, subscriber) && known == old(Has(byPattern, pattern, key))
    {
      known := Has(byPattern, pattern, key);
      byPattern := AddTo(byPattern, pattern, key, subscriber);
      bySubscriber := AddKey(bySubscriber, key, pattern);
      if !known && |byPattern[pattern]| == 1 { log := log + [Gained(pattern)]; }
      if !known { told := told[(pattern, key) := subscriber]; }
    }

    /** The trie half of a new subscription. */
    method Spread(pattern: string, segs: seq<string>, subscriber: PID, ghost before: Told)
      requires trie.Valid() && ParseTopicPattern(pattern) == Ok(segs) && HeldFor(trie.model.held, before, before.Keys)
      requires (pattern, subscriber.Key()) !in before && told == before[(pattern, subscriber.Key()) := subscriber]
      modifies trie, trie.nodes
      ensures trie.Valid() && (forall n :: n in trie.nodes ==> n in old(trie.nodes) || fresh(n))
      ensures trie.model.recorded == old(trie.model.recorded) + PatternEntries(pattern, {subscriber.Key()})
      ensures HeldFor(trie.model.held, told, told.Keys)
    {
      HeldSame(trie.model.held, before, before.Keys, told, before.Keys);
      assert told.Keys == before.Keys + {(pattern, subscriber.Key())};
      InsertKeyed(trie, segs, subscriber.Key(), subscriber, pattern, told, before.Keys);
    }

    /** The body of a subscription, under the lock. */
    method Enroll(pattern: string, segs: seq<string>, subscriber: PID)
      requires trie.Valid() && ParseTopicPattern(pattern) == Ok(segs) && told.Keys == Subs(byPattern)
      requires HeldFor(trie.model.held, told, told.Keys)
      modifies this`byPattern, this`bySubscriber, this`log, this`told, trie, trie.nodes
      ensures trie.Valid() && (forall n :: n in trie.nodes ==> n in old(trie.nodes) || fresh(n))
      ensures View() == Enrolled(old(View()), pattern, subscriber.Key(), subscriber)
      ensures trie.model.recorded == old(trie.model.recorded) +
                if old(Has(byPattern, pattern, subscriber.Key())) then {} else PatternEntries(pattern, {subscriber.Key()})
      ensures HeldFor(trie.model.held, told, told.Keys)
    {
      HasIsPair(byPattern, pattern, subscriber.Key());
      var known := Enter(pattern, subscriber.Key(), subscriber);
      if !known { Spread(pattern, segs, subscriber, old(told)); }
    }

    /** The subscriber joins the pattern, once. */
    method HandleSubscribe(isAsk: bool, pattern: string, subscriber: PID) returns (outcome: Outcome)
      requires Valid()
      modifies this`byPattern, this`bySubscriber, this`log, this`told, trie, trie.nodes
      ensures Valid() && (forall n :: n in trie.nodes ==> n in old(trie.nodes) || fresh(n))
      ensures outcome == if !isAsk then InvalidCommand else if ParseTopicPattern(pattern).Invalid? then InvalidPattern else Subscribed
      ensures View() == Apply(old(View()), Sub(isAsk, pattern, subscriber))
    {
      if !isAsk { return InvalidCommand; }
      var p := ParseTopicPattern(pattern);
      if p.Invalid? { return InvalidPattern; }
      EnrolledKeeps(View(), pattern, subscriber.Key(), subscriber);
      EnrolledEntries(View(), pattern, subscriber.Key(), subscriber);
      Enroll(pattern, p.value, subscriber);
      outcome := Subscribed;
    }

    /** The index half of an unsubscription. */
    method Leave(pattern: string, key: string)
      requires pattern in byPattern && key in bySubscriber
      modifies this`byPattern, this`bySubscriber, this`log, this`told
      ensures View() == Expelled(old(View()), pattern, key) && told == Current(byPattern)
    {
      byPattern := DropFrom(byPattern, pattern, key);
      bySubscriber := DropKey(bySubscriber, key, pattern);
      if pattern !in byPattern { log := log + [Lost(pattern)]; }
      told := Current(byPattern);
    }

    /** The body of an unsubscription, under the lock. */
    method Expel(pattern: string, key: string)
      requires pattern in byPattern && key in bySubscriber && AllKeyed(DropFrom(byPattern, pattern, key))
      modifies this
      ensures View() == Expelled(old(View()), pattern, key)
      ensures trie.Valid() && fresh(trie) && (forall n :: n in trie.nodes ==> fresh(n))
      ensures trie.model.recorded == Entries(View().Pairs()) && HeldFor(trie.model.held, told, View().Pairs())
    {
      Leave(pattern, key);
      Rebuild();
    }

    method Rebuild()
      requires AllKeyed(byPattern)
      modifies this`trie
      ensures trie.Valid() && fresh(trie) && (forall n :: n in trie.nodes ==> fresh(n))
      ensures trie.model.recorded == Entries(Subs(byPattern)) && HeldFor(trie.model.held, Current(byPattern), Subs(byPattern))
    {
      trie := BuildTrie(byPattern);
    }

    /** The subscriber leaves the pattern, if it had joined, and the trie is rebuilt. */
    method HandleUnsubscribe(isAsk: bool, pattern: string, subscriber: PID) returns (outcome: Outcome)
      requires Valid()
      modifies this
      ensures Valid() && (trie == old(trie) || (fresh(trie) && forall n :: n in trie.nodes ==> fresh(n)))
      ensures outcome == if !isAsk then InvalidCommand else if ParseTopicPattern(pattern).Invalid? then InvalidPattern
                         else if old((pattern, subscriber.Key()) in View().Pairs()) then Unsubscribed else NotFound
      ensures View() == Apply(old(View()), Unsub(isAsk, pattern, subscriber))
    {
      if !isAsk { return InvalidCommand; }
      var p := ParseTopicPattern(pattern);
      if p.Invalid? { return InvalidPattern; }
      HasIsPair(byPattern, pattern, subscriber.Key());
      if !Has(byPattern, pattern, subscriber.Key()) { return NotFound; }
      ExpelledKeeps(View(), pattern, subscriber.Key());
      Expel(pattern, subscriber.Key());
      outcome := Unsubscribed;
    }

    /** The targets of a publication, each once; only local publications are broadcast. */
    method HandlePublish(topic: string, isRemote: bool) returns (targets: map<string, PID>, broadcast: bool)
      requires Valid()
      ensures Keyed(targets)
      ensures targets.Keys == if ParsePublishTopic(topic).Ok? then Reached(View().Pairs(), Split(topic)) else {}
      ensures forall k :: k in targets ==> ToldTo(View(), Split(topic), k, targets[k])
      ensures broadcast <==> ParsePublishTopic(topic).Ok? && !isRemote
    {
      var t := ParsePublishTopic(topic);
      if t.Invalid? { return map[], false; }
      targets := trie.Match(t.value);
      broadcast := !isRemote;
      AllReached(View().Pairs(), t.value);
      AllTold(View(), trie.model.held, targets, t.value);
    }
  }
}

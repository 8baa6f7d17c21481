/** The subscription trie against naive matching. */
module Trie {
  import opened TopicPattern
  import opened Pid

  /** A position in the trie: the segments walked from the root, innermost last. */
  datatype Path = Root | Down(parent: Path, seg: string) | Star(parent: Path)

  /** A subscriber key recorded at a position, as an exact or as a tail subscription. */
  datatype Entry = Entry(path: Path, tail: bool, key: string)

  function Depth(p: Path): nat { if p.Root? then 0 else Depth(p.parent) + 1 }

  /** One segment further: `+` has its own branch. */
  function Below(p: Path, seg: string): Path { if seg == "+" then Star(p) else Down(p, seg) }

  function PathOf(segs: seq<string>): (p: Path)
    ensures Depth(p) == |segs|
  {
    if segs == [] then Root else Below(PathOf(segs[..|segs| - 1]), segs[|segs| - 1])
  }

  function EntryOf(pattern: seq<string>, key: string): Entry
  {
    if EndsWith(pattern, "#") then Entry(PathOf(pattern[..|pattern| - 1]), true, key) else Entry(PathOf(pattern), false, key)
  }

  /** The segments of p match the segments of topic one for one. */
  predicate Spells(p: Path, topic: seq<string>)
  {
    if p.Root? then topic == []
    else topic != [] && (p.Star? || p.seg == topic[|topic| - 1]) && Spells(p.parent, topic[..|topic| - 1])
  }

  predicate EntryMatches(e: Entry, topic: seq<string>)
  {
    Depth(e.path) <= |topic| && Spells(e.path, topic[..Depth(e.path)]) && (e.tail || Depth(e.path) == |topic|)
  }

  lemma {:induction false} SpellsIsPointwise(segs: seq<string>, topic: seq<string>)
    ensures Spells(PathOf(segs), topic) <==>
            |segs| == |topic| && forall i :: 0 <= i < |segs| ==> SegmentMatches(segs[i], topic[i])
  {
    if segs != [] && topic != [] {
      var init, t := segs[..|segs| - 1], topic[..|topic| - 1];
      SpellsIsPointwise(init, t);
      if |segs| == |topic| {
        assert (forall i :: 0 <= i < |segs| ==> SegmentMatches(segs[i], topic[i])) <==>
               SegmentMatches(segs[|init|], topic[|init|]) && forall i :: 0 <= i < |init| ==> SegmentMatches(init[i], t[i]);
      }
    }
  }

  /** An entry matches a topic just when the pattern it came from does. */
  lemma EntryIsPattern(pattern: seq<string>, key: string, topic: seq<string>)
    ensures EntryMatches(EntryOf(pattern, key), topic) <==> Matches(pattern, topic)
  {
    var e := EntryOf(pattern, key);
    var n := Depth(e.path);
    if n <= |topic| {
      SpellsIsPointwise(if e.tail then pattern[..|pattern| - 1] else pattern, topic[..n]);
      if n == |topic| { assert topic[..n] == topic; }
    }
  }

  // --- descending ---

  predicate Under(p: Path, q: Path)
  {
    q == p || (!q.Root? && Under(p, q.parent))
  }

  lemma {:induction false} UnderDeeper(p: Path, q: Path)
    requires Under(p, q)
    ensures Depth(p) <= Depth(q) && (Depth(p) == Depth(q) ==> p == q)
  {
    if q != p { UnderDeeper(p, q.parent); }
  }

  /** A proper descendant lies below a child. */
  lemma {:induction false} ChildTowards(p: Path, q: Path) returns (child: Path)
    requires Under(p, q) && p != q
    ensures !child.Root? && child.parent == p && Under(child, q)
  {
    if q.parent == p { child := q; } else { child := ChildTowards(p, q.parent); }
  }

  lemma {:induction false} UnderChild(child: Path, q: Path)
    requires !child.Root? && Under(child, q)
    ensures Under(child.parent, q)
  {
    if q != child { UnderChild(child, q.parent); }
  }

  /** What matches a topic from the root matches every prefix on the way. */
  lemma {:induction false} SpellsAbove(p: Path, q: Path, topic: seq<string>)
    requires Under(p, q) && Spells(q, topic)
    ensures Depth(p) <= |topic| && Spells(p, topic[..Depth(p)])
  {
    UnderDeeper(p, q);
    SpellsDepth(q, topic);
    if q == p {
      assert topic[..Depth(p)] == topic;
    } else {
      var t := topic[..|topic| - 1];
      SpellsAbove(p, q.parent, t);
      assert t[..Depth(p)] == topic[..Depth(p)];
    }
  }

  lemma {:induction false} SpellsDepth(q: Path, topic: seq<string>)
    requires Spells(q, topic)
    ensures |topic| == Depth(q)
  {
    if !q.Root? { SpellsDepth(q.parent, topic[..|topic| - 1]); }
  }

  /** k has a recorded entry at or below p that matches topic. */
  ghost predicate Hit(recorded: set<Entry>, p: Path, k: string, topic: seq<string>)
  {
    exists e :: e in recorded && HitBy(e, p, k, topic)
  }

  ghost predicate HitBy(e: Entry, p: Path, k: string, topic: seq<string>)
  {
    e.key == k && Under(p, e.path) && EntryMatches(e, topic)
  }

  lemma HitByStep(e: Entry, p: Path, k: string, topic: seq<string>)
    requires HitBy(e, p, k, topic)
    ensures e.path == p || (Depth(p) < |topic| &&
              (HitBy(e, Down(p, topic[Depth(p)]), k, topic) || HitBy(e, Star(p), k, topic)))
  {
    if e.path != p {
      var child := ChildTowards(p, e.path);
      var t := topic[..Depth(e.path)];
      SpellsAbove(child, e.path, t);
      SpelledChild(child, t[..Depth(child)], topic[Depth(p)]);
      assert HitBy(e, child, k, topic);
    }
  }

  lemma SpelledChild(child: Path, prefix: seq<string>, seg: string)
    requires !child.Root? && Spells(child, prefix) && prefix[|prefix| - 1] == seg
    ensures child == Star(child.parent) || child == Down(child.parent, seg)
  {}

  /** The walk of a node: its tails, then the literal, then the star branch. */
  lemma BothBranches(acc: map<string, PID>, tails: map<string, PID>, words: map<string, PID>, results: map<string, PID>,
                     held: map<Entry, PID>, p: Path, seg: string, topic: seq<string>)
    requires forall k :: k in tails ==> Comes(acc, held, p, topic, k, tails[k])
    requires forall k :: k in words ==> Comes(tails, held, Down(p, seg), topic, k, words[k])
    requires forall k :: k in results ==> Comes(words, held, Star(p), topic, k, results[k])
    ensures forall k :: k in results ==> Comes(acc, held, p, topic, k, results[k])
  {
    forall k | k in words ensures Comes(acc, held, p, topic, k, words[k]) {
      ComesUp(tails, held, Down(p, seg), topic, k, words[k]);
      ComesTwice(acc, tails, held, p, topic, k, words[k]);
    }
    forall k | k in results ensures Comes(acc, held, p, topic, k, results[k]) {
      ComesUp(words, held, Star(p), topic, k, results[k]);
      ComesTwice(acc, words, held, p, topic, k, results[k]);
    }
  }

  /** The PID was there before, or is held for a matching entry at or below p. */
  ghost predicate Comes(acc: map<string, PID>, held: map<Entry, PID>, p: Path, topic: seq<string>, k: string, pid: PID)
  {
    (k in acc && acc[k] == pid) || exists e :: e in held && HitBy(e, p, k, topic) && held[e] == pid
  }

  lemma ComesUp(acc: map<string, PID>, held: map<Entry, PID>, child: Path, topic: seq<string>, k: string, pid: PID)
    requires !child.Root? && Comes(acc, held, child, topic, k, pid)
    ensures Comes(acc, held, child.parent, topic, k, pid)
  {
    if !(k in acc && acc[k] == pid) {
      var e :| e in held && HitBy(e, child, k, topic) && held[e] == pid;
      UnderChild(child, e.path);
    }
  }

  lemma ComesTwice(acc: map<string, PID>, mid: map<string, PID>, held: map<Entry, PID>, p: Path, topic: seq<string>, k: string, pid: PID)
    requires Comes(mid, held, p, topic, k, pid) && (k in mid ==> Comes(acc, held, p, topic, k, mid[k]))
    ensures Comes(acc, held, p, topic, k, pid)
  {}

  lemma ComesFrom(acc: map<string, PID>, here: map<string, PID>, tail: bool, held: map<Entry, PID>, p: Path, topic: seq<string>, k: string)
    requires Depth(p) <= |topic| && Spells(p, topic[..Depth(p)]) && (tail || Depth(p) == |topic|) && k in acc + here
    requires k in here ==> Entry(p, tail, k) in held && held[Entry(p, tail, k)] == here[k]
    ensures Comes(acc, held, p, topic, k, (acc + here)[k])
  {
    if k in here { assert HitBy(Entry(p, tail, k), p, k, topic); }
  }

  lemma AllCome(acc: map<string, PID>, here: map<string, PID>, tail: bool, held: map<Entry, PID>, p: Path, topic: seq<string>)
    requires Depth(p) <= |topic| && Spells(p, topic[..Depth(p)]) && (tail || Depth(p) == |topic|)
    requires forall k :: k in here ==> Entry(p, tail, k) in held && held[Entry(p, tail, k)] == here[k]
    ensures forall k :: k in acc + here ==> Comes(acc, held, p, topic, k, (acc + here)[k])
  {
    forall k | k in acc + here ensures Comes(acc, held, p, topic, k, (acc + here)[k]) { ComesFrom(acc, here, tail, held, p, topic, k); }
  }

  /** The end of the topic: the tails of the node and then its exact subscribers. */
  lemma EndComes(acc: map<string, PID>, tails: map<string, PID>, exact: map<string, PID>,
                 held: map<Entry, PID>, p: Path, topic: seq<string>)
    requires Depth(p) == |topic| && Spells(p, topic[..Depth(p)])
    requires forall k :: k in tails ==> Comes(acc, held, p, topic, k, tails[k])
    requires forall k :: k in exact ==> Entry(p, false, k) in held && held[Entry(p, false, k)] == exact[k]
    ensures forall k :: k in tails + exact ==> Comes(acc, held, p, topic, k, (tails + exact)[k])
  {
    AllCome(tails, exact, false, held, p, topic);
    forall k | k in tails + exact ensures Comes(acc, held, p, topic, k, (tails + exact)[k]) {
      ComesTwice(acc, tails, held, p, topic, k, (tails + exact)[k]);
    }
  }

  /** The recursion of `match`: tail subscribers at p, exact subscribers at the end of the
      topic, and otherwise the literal and the star branch. */
  lemma HitStep(recorded: set<Entry>, p: Path, k: string, topic: seq<string>)
    requires Depth(p) <= |topic| && Spells(p, topic[..Depth(p)])
    ensures Hit(recorded, p, k, topic) <==>
              || Entry(p, true, k) in recorded
              || (Depth(p) == |topic| && Entry(p, false, k) in recorded)
              || (Depth(p) < |topic| && (Hit(recorded, Down(p, topic[Depth(p)]), k, topic) || Hit(recorded, Star(p), k, topic)))
  {
    if Hit(recorded, p, k, topic) {
      var e :| e in recorded && HitBy(e, p, k, topic);
      HitByStep(e, p, k, topic);
      assert e.path == p ==> e == Entry(p, e.tail, k);
    }
    assert Entry(p, true, k) in recorded ==> HitBy(Entry(p, true, k), p, k, topic);
    assert Entry(p, false, k) in recorded && Depth(p) == |topic| ==> HitBy(Entry(p, false, k), p, k, topic);
    forall child: Path, e | !child.Root? && child.parent == p && e in recorded && HitBy(e, child, k, topic)
      ensures HitBy(e, p, k, topic)
    {
      UnderChild(child, e.path);
    }
    if Depth(p) < |topic| {
      assert Down(p, topic[Depth(p)]).parent == p && Star(p).parent == p;
    }
  }

  /** The keys of a walk that ends at p. */
  lemma EndKeys(recorded: set<Entry>, p: Path, topic: seq<string>, acc: map<string, PID>, tails: map<string, PID>, exact: map<string, PID>)
    requires Depth(p) == |topic| && Spells(p, topic[..Depth(p)])
    requires forall k :: k in tails <==> k in acc || Entry(p, true, k) in recorded
    requires forall k :: k in exact <==> Entry(p, false, k) in recorded
    ensures forall k :: k in tails + exact <==> k in acc || Hit(recorded, p, k, topic)
  {
    forall k: string { HitStep(recorded, p, k, topic); }
  }

  /** The keys of a walk that goes on below p. */
  lemma BranchKeys(recorded: set<Entry>, p: Path, topic: seq<string>, acc: map<string, PID>, tails: map<string, PID>,
                   words: map<string, PID>, results: map<string, PID>)
    requires Depth(p) < |topic| && Spells(p, topic[..Depth(p)])
    requires forall k :: k in tails <==> k in acc || Entry(p, true, k) in recorded
    requires forall k :: k in words <==> k in tails || Hit(recorded, Down(p, topic[Depth(p)]), k, topic)
    requires forall k :: k in results <==> k in words || Hit(recorded, Star(p), k, topic)
    ensures forall k :: k in results <==> k in acc || Hit(recorded, p, k, topic)
  {
    forall k: string { HitStep(recorded, p, k, topic); }
  }

  // --- nodes ---

  class TrieNode {
    var children: map<string, TrieNode>
    var star: TrieNode?
    var exact: map<string, PID>
    var tail: map<string, PID>
    ghost const path: Path

    constructor (ghost path: Path)
      ensures View() == EmptyView() && this.path == path
    {
      children, star, exact, tail := map[], null, map[], map[];
      this.path := path;
    }

    ghost function View(): NodeView
      reads this
    {
      NodeView(children, star, exact, tail)
    }

    method Hang(seg: string, next: TrieNode, ghost below: Path)
      requires !below.Root? && below == Below(below.parent, seg)
      modifies this
      ensures View() == Extended(old(View()), below, next)
    {
      if seg == "+" {
        star := next;
      } else {
        children := children[seg := next];
      }
    }

    method Put(pid: PID, asTail: bool)
      modifies this
      ensures View() == Noted(old(View()), asTail, pid)
    {
      if asTail {
        tail := tail[pid.Key() := pid];
      } else {
        exact := exact[pid.Key() := pid];
      }
    }
  }

  datatype NodeView = NodeView(children: map<string, TrieNode>, star: TrieNode?, exact: map<string, PID>, tail: map<string, PID>)

  function EmptyView(): NodeView { NodeView(map[], null, map[], map[]) }

  // --- the shape of a trie, on values: nodes by path, and what each node holds ---

  /** The node at p has exactly the children whose paths exist. */
  ghost predicate Linked(at: map<Path, TrieNode>, v: NodeView, p: Path)
  {
    && (forall s :: s in v.children <==> Down(p, s) in at)
    && (forall s :: s in v.children ==> v.children[s] == at[Down(p, s)])
    && (v.star == null <==> Star(p) !in at)
    && (v.star != null ==> v.star == at[Star(p)])
  }

  ghost predicate Keyed(pids: map<string, PID>)
  {
    forall k :: k in pids ==> pids[k].Key() == k
  }

  lemma MergeKeyed(a: map<string, PID>, b: map<string, PID>)
    requires Keyed(a) && Keyed(b)
    ensures Keyed(a + b)
  {}

  /** The node at p holds exactly the keys recorded there. */
  ghost predicate Filled(recorded: set<Entry>, v: NodeView, p: Path)
  {
    && Keyed(v.exact) && Keyed(v.tail)
    && (forall k :: k in v.exact <==> Entry(p, false, k) in recorded)
    && (forall k :: k in v.tail <==> Entry(p, true, k) in recorded)
  }

  /** The node at p holds the PIDs that are held for its entries. */
  ghost predicate Holds(held: map<Entry, PID>, v: NodeView, p: Path)
  {
    && (forall k :: k in v.exact ==> Entry(p, false, k) in held && held[Entry(p, false, k)] == v.exact[k])
    && (forall k :: k in v.tail ==> Entry(p, true, k) in held && held[Entry(p, true, k)] == v.tail[k])
  }

  /** The parent of a node is a node. */
  ghost predicate Rooted(at: map<Path, TrieNode>, q: Path) { q.Root? || q.parent in at }

  /** What is recorded has its node. */
  ghost predicate Seated(at: map<Path, TrieNode>, e: Entry) { e.path in at }

  datatype Model = Model(at: map<Path, TrieNode>, views: map<Path, NodeView>, recorded: set<Entry>, held: map<Entry, PID>)
  {
    ghost predicate Ok()
    {
      && views.Keys == at.Keys && held.Keys == recorded
      && (forall q {:trigger Rooted(at, q)} :: q in at ==> Rooted(at, q))
      && (forall e {:trigger Seated(at, e)} :: e in recorded ==> Seated(at, e))
      && (forall p {:trigger Linked(at, views[p], p)} :: p in at ==> Linked(at, views[p], p))
      && (forall p {:trigger Filled(recorded, views[p], p)} :: p in at ==> Filled(recorded, views[p], p))
      && (forall p {:trigger Holds(held, views[p], p)} :: p in at ==> Holds(held, views[p], p))
    }
  }

  lemma {:induction false} AbovePresent(m: Model, p: Path, q: Path)
    requires m.Ok() && Under(p, q) && q in m.at
    ensures p in m.at
  {
    if q != p {
      assert Rooted(m.at, q);
      AbovePresent(m, p, q.parent);
    }
  }

  /** A position without a node leads to no recorded entry. */
  lemma NoNodeNoHit(m: Model, p: Path, k: string, topic: seq<string>)
    requires m.Ok() && p !in m.at
    ensures !Hit(m.recorded, p, k, topic)
  {
    if Hit(m.recorded, p, k, topic) {
      var e :| e in m.recorded && HitBy(e, p, k, topic);
      assert Seated(m.at, e);
      AbovePresent(m, p, e.path);
    }
  }

  lemma NoKeys(m: Model, p: Path, topic: seq<string>)
    requires m.Ok() && p !in m.at
    ensures forall k :: !Hit(m.recorded, p, k, topic)
  {
    forall k: string { NoNodeNoHit(m, p, k, topic); }
  }

  /** Links of nodes other than the new node's parent do not notice it. */
  lemma LinkedElsewhere(at: map<Path, TrieNode>, v: NodeView, q: Path, below: Path, next: TrieNode)
    requires Linked(at, v, q) && !below.Root? && below.parent != q
    ensures Linked(at[below := next], v, q)
  {
    forall s: string ensures Down(q, s) != below {}
  }

  lemma LinkedParent(at: map<Path, TrieNode>, v: NodeView, below: Path, next: TrieNode)
    requires !below.Root? && Linked(at, v, below.parent) && below !in at
    ensures Linked(at[below := next], Extended(v, below, next), below.parent)
  {}

  lemma FreshLinks(m: Model, below: Path, next: TrieNode)
    requires m.Ok() && below !in m.at
    ensures Linked(m.at[below := next], EmptyView(), below)
  {
    forall s: string ensures Down(below, s) !in m.at && Down(below, s) != below {
      assert Depth(Down(below, s)) != Depth(below) && (Down(below, s) in m.at ==> Rooted(m.at, Down(below, s)));
    }
    assert Depth(Star(below)) != Depth(below) && (Star(below) in m.at ==> Rooted(m.at, Star(below)));
  }

  /** The parent's view once next hangs at below. */
  function Extended(v: NodeView, below: Path, next: TrieNode): NodeView
    requires !below.Root?
  {
    if below.Star? then v.(star := next) else v.(children := v.children[below.seg := next])
  }

  /** The model with an empty node at below. */
  ghost function Attach(m: Model, below: Path, next: TrieNode): Model
    requires !below.Root? && below.parent in m.views
  {
    Model(m.at[below := next],
          m.views[below.parent := Extended(m.views[below.parent], below, next)][below := EmptyView()], m.recorded, m.held)
  }

  lemma AttachLinked(m: Model, below: Path, next: TrieNode, q: Path)
    requires m.Ok() && !below.Root? && below.parent in m.at && below !in m.at && q in Attach(m, below, next).at
    ensures Linked(Attach(m, below, next).at, Attach(m, below, next).views[q], q)
  {
    if q == below {
      FreshLinks(m, below, next);
    } else {
      assert Linked(m.at, m.views[q], q);
      if q == below.parent { LinkedParent(m.at, m.views[q], below, next); } else { LinkedElsewhere(m.at, m.views[q], q, below, next); }
    }
  }

  lemma AttachFilled(m: Model, below: Path, next: TrieNode, q: Path)
    requires m.Ok() && !below.Root? && below.parent in m.at && below !in m.at && q in Attach(m, below, next).at
    ensures Filled(m.recorded, Attach(m, below, next).views[q], q)
  {
    if q == below { NothingAt(m, below); } else { assert Filled(m.recorded, m.views[q], q); }
  }

  lemma NothingAt(m: Model, p: Path)
    requires m.Ok() && p !in m.at
    ensures Filled(m.recorded, EmptyView(), p)
  {
    forall tail: bool, k: string ensures Entry(p, tail, k) !in m.recorded {
      assert Entry(p, tail, k) in m.recorded ==> Seated(m.at, Entry(p, tail, k));
    }
  }

  /** Adding an empty node keeps the trie in order. */
  lemma AttachKeeps(m: Model, below: Path, next: TrieNode)
    requires m.Ok() && !below.Root? && below.parent in m.at && below !in m.at
    ensures Attach(m, below, next).Ok()
  {
    var m' := Attach(m, below, next);
    forall q | q in m'.at ensures Linked(m'.at, m'.views[q], q) { AttachLinked(m, below, next, q); }
    forall q | q in m'.at ensures Filled(m'.recorded, m'.views[q], q) { AttachFilled(m, below, next, q); }
    forall q | q in m'.at ensures Holds(m'.held, m'.views[q], q) { assert q != below ==> Holds(m.held, m.views[q], q); }
    forall q | q in m'.at ensures Rooted(m'.at, q) { assert q != below ==> Rooted(m.at, q); }
    forall e | e in m.recorded ensures Seated(m'.at, e) { assert Seated(m.at, e); }
  }

  /** The holder's view with the subscriber recorded. */
  function Noted(v: NodeView, tail: bool, pid: PID): NodeView
  {
    if tail then v.(tail := v.tail[pid.Key() := pid]) else v.(exact := v.exact[pid.Key() := pid])
  }

  /** The model with e recorded. */
  ghost function Note(m: Model, e: Entry, pid: PID): Model
    requires e.path in m.views
  {
    Model(m.at, m.views[e.path := Noted(m.views[e.path], e.tail, pid)], m.recorded + {e}, m.held[e := pid])
  }

  lemma FilledElsewhere(recorded: set<Entry>, v: NodeView, q: Path, e: Entry)
    requires Filled(recorded, v, q) && e.path != q
    ensures Filled(recorded + {e}, v, q)
  {}

  lemma FilledHere(recorded: set<Entry>, v: NodeView, e: Entry, pid: PID)
    requires Filled(recorded, v, e.path) && e.key == pid.Key()
    ensures Filled(recorded + {e}, Noted(v, e.tail, pid), e.path)
  {}

  lemma NoteHolds(m: Model, e: Entry, pid: PID, q: Path)
    requires e.path in m.views && q in m.views && Holds(m.held, m.views[q], q) && e.key == pid.Key()
    ensures Holds(Note(m, e, pid).held, Note(m, e, pid).views[q], q)
  {}

  /** Recording a key at its node keeps the trie in order. */
  lemma NoteKeeps(m: Model, e: Entry, pid: PID)
    requires m.Ok() && e.path in m.at && e.key == pid.Key()
    ensures Note(m, e, pid).Ok()
  {
    var m' := Note(m, e, pid);
    forall q | q in m.at ensures Rooted(m'.at, q) { assert Rooted(m.at, q); }
    forall q | q in m.at ensures Holds(m'.held, m'.views[q], q) {
      assert Holds(m.held, m.views[q], q);
      NoteHolds(m, e, pid, q);
    }
    forall x | x in m'.recorded ensures Seated(m'.at, x) { assert x in m.recorded ==> Seated(m.at, x); }
    forall q | q in m.at ensures Linked(m'.at, m'.views[q], q) && Filled(m'.recorded, m'.views[q], q) {
      assert Linked(m.at, m.views[q], q) && Filled(m.recorded, m.views[q], q);
      if q == e.path { FilledHere(m.recorded, m.views[q], e, pid); } else { FilledElsewhere(m.recorded, m.views[q], q, e); }
    }
  }

  /** What the i-th segment of a pattern contributes to its entry. */
  lemma LastSegment(segs: seq<string>, i: nat, key: string)
    requires ValidPattern(segs) && i < |segs|
    ensures PathOf(segs[..i + 1]) == Below(PathOf(segs[..i]), segs[i])
    ensures segs[i] == "#" ==> EntryOf(segs, key) == Entry(PathOf(segs[..i]), true, key) && !EndsWith(segs, "+")
    ensures i == |segs| - 1 && segs[i] != "#" && segs[i] != "+" ==>
              EntryOf(segs, key) == Entry(Below(PathOf(segs[..i]), segs[i]), false, key) && !EndsWith(segs, "+")
    ensures i == |segs| - 1 && segs[i] == "+" ==> EndsWith(segs, "+")
  {
    assert SegmentOk(segs[i], i == |segs| - 1);
    assert segs[..i + 1][..i] == segs[..i];
    if i == |segs| - 1 { assert segs[..i + 1] == segs; }
  }

  class SubscriptionTrie {
    var root: TrieNode
    ghost var model: Model
    ghost var nodes: set<TrieNode>

    /** The nodes hold what the model says. */
    ghost predicate Synced()
      reads this, nodes
    {
      && model.views.Keys == model.at.Keys
      && Root in model.at && model.at[Root] == root
      && (forall p {:trigger model.at[p]} :: p in model.at ==>
            model.at[p] in nodes && model.at[p].path == p && model.at[p].View() == model.views[p])
    }

    ghost predicate Valid()
      reads this, nodes
    {
      Synced() && model.Ok()
    }

    constructor ()
      ensures Valid() && model.recorded == {} && model.held == map[] && (forall n :: n in nodes ==> fresh(n))
    {
      root := new TrieNode(Root);
      new;
      model := Model(map[Root := root], map[Root := EmptyView()], {}, map[]);
      nodes := {root};
    }

    /** Takes a new node, already hanging from its parent, into the model. */
    ghost method Adopt(below: Path, next: TrieNode)
      requires model.views.Keys == model.at.Keys && Root in model.at && model.at[Root] == root
      requires !below.Root? && below.parent in model.at && below !in model.at
      requires forall q {:trigger model.at[q]} :: q in model.at ==>
                 && model.at[q] in nodes && model.at[q].path == q
                 && model.at[q].View() == (if q == below.parent then Extended(model.views[q], below, next) else model.views[q])
      requires next.path == below && next.View() == EmptyView()
      modifies this`model, this`nodes
      ensures Synced() && nodes == old(nodes) + {next} && model == Attach(old(model), below, next)
    {
      var m, m' := model, Attach(model, below, next);
      forall q | q in m'.at ensures m'.at[q] in nodes + {next} && m'.at[q].path == q && m'.at[q].View() == m'.views[q] {
        if q != below { assert m.at[q] in nodes; }
      }
      nodes, model := nodes + {next}, m';
    }

    /** Hangs an empty node one segment below. */
    method AddChild(ghost p: Path, node: TrieNode, seg: string) returns (next: TrieNode)
      requires Synced() && p in model.at && model.at[p] == node && Below(p, seg) !in model.at
      modifies this`model, this`nodes, node
      ensures Synced() && (forall n :: n in nodes ==> n in old(nodes) || fresh(n))
      ensures model == Attach(old(model), Below(p, seg), next)
    {
      next := new TrieNode(Below(p, seg));
      node.Hang(seg, next, Below(p, seg));
      Adopt(Below(p, seg), next);
    }

    /** The node one segment below, created if needed. */
    method Descend(ghost p: Path, node: TrieNode, seg: string) returns (next: TrieNode)
      requires Valid() && p in model.at && model.at[p] == node
      modifies this`model, this`nodes, node
      ensures Valid() && (forall n :: n in nodes ==> n in old(nodes) || fresh(n))
      ensures model.recorded == old(model.recorded) && model.held == old(model.held)
      ensures Below(p, seg) in model.at && next == model.at[Below(p, seg)]
    {
      assert Linked(model.at, model.views[p], p);
      if seg == "+" {
        if node.star != null { return node.star; }
      } else if seg in node.children {
        return node.children[seg];
      }
      next := AddChild(p, node, seg);
      AttachKeeps(old(model), Below(p, seg), next);
    }

    method PutAt(ghost e: Entry, node: TrieNode, pid: PID, tail: bool)
      requires Synced() && e.path in model.at && model.at[e.path] == node && e.tail == tail && e.key == pid.Key()
      modifies this`model, node
      ensures Synced() && nodes == old(nodes) && model == Note(old(model), e, pid)
    {
      node.Put(pid, tail);
      model := Note(model, e, pid);
    }

    method Record(ghost e: Entry, node: TrieNode, pid: PID, tail: bool)
      requires Valid() && e.path in model.at && model.at[e.path] == node && e.tail == tail && e.key == pid.Key()
      modifies this`model, node
      ensures Valid() && nodes == old(nodes) && model.recorded == old(model.recorded) + {e} && model.held == old(model.held)[e := pid]
    {
      PutAt(e, node, pid, tail);
      NoteKeeps(old(model), e, pid);
    }

    /** Walks the pattern's segments, creating nodes, and records the subscriber at the
        end; a pattern that ends in `+` leaves its nodes behind but records nothing. */
    method Insert(segs: seq<string>, pid: PID)
      requires Valid() && ValidPattern(segs)
      modifies this`model, this`nodes, nodes
      ensures Valid() && (forall n :: n in nodes ==> n in old(nodes) || fresh(n))
      ensures model.recorded == old(model.recorded) + if EndsWith(segs, "+") then {} else {EntryOf(segs, pid.Key())}
      ensures model.held == if EndsWith(segs, "+") then old(model.held) else old(model.held)[EntryOf(segs, pid.Key()) := pid]
    {
      var node := root;
      ghost var p := Root;
      var i := 0;
      while i < |segs|
        invariant 0 <= i <= |segs| && (i == |segs| ==> EndsWith(segs, "+"))
        invariant Valid() && (forall n :: n in nodes ==> n in old(nodes) || fresh(n))
        invariant model.recorded == old(model.recorded) && model.held == old(model.held)
        invariant p == PathOf(segs[..i]) && p in model.at && model.at[p] == node
      {
        var seg := segs[i];
        LastSegment(segs, i, pid.Key());
        if seg == "#" {
          Record(Entry(p, true, pid.Key()), node, pid, true);
          return;
        }
        node := Descend(p, node, seg);
        p := Below(p, seg);
        if seg != "+" && i == |segs| - 1 {
          Record(Entry(p, false, pid.Key()), node, pid, false);
          return;
        }
        i := i + 1;
      }
    }

    /** The recursive walk of `match`, accumulating into results. */
    method Walk(node: TrieNode?, ghost p: Path, topic: seq<string>, idx: nat, acc: map<string, PID>) returns (results: map<string, PID>)
      requires Valid() && ValidTopic(topic) && idx == Depth(p) <= |topic| && Spells(p, topic[..idx])
      requires node == null <==> p !in model.at
      requires Keyed(acc) && (node != null ==> model.at[p] == node)
      ensures Keyed(results) && forall k :: k in results <==> k in acc || Hit(model.recorded, p, k, topic)
      ensures forall k :: k in results ==> Comes(acc, model.held, p, topic, k, results[k])
      decreases |topic| - idx, 1
    {
      if node == null {
        NoKeys(model, p, topic);
        return acc;
      }
      assert Linked(model.at, model.views[p], p) && Filled(model.recorded, model.views[p], p) && Holds(model.held, model.views[p], p);
      MergeKeyed(acc, node.tail);
      AllCome(acc, node.tail, true, model.held, p, topic);
      var tails := acc + node.tail;
      if idx == |topic| {
        MergeKeyed(tails, node.exact);
        EndComes(acc, tails, node.exact, model.held, p, topic);
        EndKeys(model.recorded, p, topic, acc, tails, node.exact);
        return tails + node.exact;
      }
      ghost var words;
      words, results := Branches(node, p, topic, idx, tails);
      BothBranches(acc, tails, words, results, model.held, p, topic[idx], topic);
      BranchKeys(model.recorded, p, topic, acc, tails, words, results);
    }

    /** The literal branch and then the star branch. */
    method Branches(node: TrieNode, ghost p: Path, topic: seq<string>, idx: nat, tails: map<string, PID>)
      returns (ghost words: map<string, PID>, results: map<string, PID>)
      requires Valid() && ValidTopic(topic) && idx == Depth(p) < |topic| && Spells(p, topic[..idx])
      requires Keyed(tails) && p in model.at && model.at[p] == node
      ensures Keyed(results)
      ensures forall k :: k in words <==> k in tails || Hit(model.recorded, Down(p, topic[idx]), k, topic)
      ensures forall k :: k in words ==> Comes(tails, model.held, Down(p, topic[idx]), topic, k, words[k])
      ensures forall k :: k in results <==> k in words || Hit(model.recorded, Star(p), k, topic)
      ensures forall k :: k in results ==> Comes(words, model.held, Star(p), topic, k, results[k])
      decreases |topic| - idx, 0
    {
      assert Linked(model.at, model.views[p], p);
      assert topic[..idx + 1][..idx] == topic[..idx];
      var seg := topic[idx];
      var literal := Walk(if seg in node.children then node.children[seg] else null, Down(p, seg), topic, idx + 1, tails);
      results := Walk(node.star, Star(p), topic, idx + 1, literal);
      words := literal;
    }

    /** The keys with a recorded entry that matches the topic, each once. */
    method Match(topic: seq<string>) returns (results: map<string, PID>)
      requires Valid() && ValidTopic(topic)
      ensures Keyed(results) && forall k :: k in results <==> exists e :: e in model.recorded && e.key == k && EntryMatches(e, topic)
      ensures forall k :: k in results ==>
                exists e :: e in model.held && e.key == k && EntryMatches(e, topic) && model.held[e] == results[k]
    {
      results := Walk(root, Root, topic, 0, map[]);
      forall k | k in results
        ensures exists e :: e in model.held && e.key == k && EntryMatches(e, topic) && model.held[e] == results[k]
      {
        assert Comes(map[], model.held, Root, topic, k, results[k]);
      }
      forall e | e in model.recorded ensures Under(Root, e.path) { RootAbove(e.path); }
      forall k: string
        ensures Hit(model.recorded, Root, k, topic) <==> exists e :: e in model.recorded && e.key == k && EntryMatches(e, topic)
      {
        if exists e :: e in model.recorded && e.key == k && EntryMatches(e, topic) {
          var e :| e in model.recorded && e.key == k && EntryMatches(e, topic);
          assert HitBy(e, Root, k, topic);
        }
      }
    }
  }

  lemma {:induction false} RootAbove(q: Path)
    ensures Under(Root, q)
  {
    if !q.Root? { RootAbove(q.parent); }
  }
}

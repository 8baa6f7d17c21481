/** Topics, topic patterns and what it means for one to match the other. */
module TopicPattern {

  datatype Result<+T> = Ok(value: T) | Invalid

  /** unicode.IsSpace. */
  predicate IsSpace(c: char)
  {
    c in {'\t', '\n', '\U{B}', '\U{C}', '\r', ' ', '\U{85}', '\U{A0}', '\U{1680}', '\U{2028}', '\U{2029}',
          '\U{202F}', '\U{205F}', '\U{3000}'}
    || '\U{2000}' <= c <= '\U{200A}'
  }

  /** strings.TrimSpace(raw) == "". */
  predicate Blank(raw: string)
  {
    forall i :: 0 <= i < |raw| ==> IsSpace(raw[i])
  }

  /** strings.Split(raw, "."). */
  function Split(raw: string): (segs: seq<string>)
    ensures segs != []
  {
    if raw == "" then [""]
    else
      var rest := Split(raw[1..]);
      if raw[0] == '.' then [""] + rest else [[raw[0]] + rest[0]] + rest[1..]
  }

  function Join(segs: seq<string>): string
  {
    if segs == [] then "" else if |segs| == 1 then segs[0] else segs[0] + "." + Join(segs[1..])
  }

  /** Splitting loses nothing, and no segment contains the separator. */
  lemma {:induction false} SplitJoin(raw: string)
    ensures Join(Split(raw)) == raw
    ensures forall i :: 0 <= i < |Split(raw)| ==> '.' !in Split(raw)[i]
  {
    if raw != "" {
      SplitJoin(raw[1..]);
      var rest := Split(raw[1..]);
      if raw[0] == '.' {
        assert ([""] + rest)[1..] == rest;
        assert Join([""] + rest) == "" + "." + Join(rest);
      } else {
        var head := [raw[0]] + rest[0];
        assert ([head] + rest[1..])[1..] == rest[1..];
        if |rest| == 1 {
          assert Join([head] + rest[1..]) == head;
        } else {
          assert head + "." + Join(rest[1..]) == [raw[0]] + (rest[0] + "." + Join(rest[1..]));
        }
      }
    }
  }

  lemma SplitPlain(seg: string)
    requires '.' !in seg
    ensures Split(seg) == [seg]
  {
    if seg != "" {
      assert seg[0] in seg && forall c :: c in seg[1..] ==> c in seg;
      SplitPlain(seg[1..]);
      assert [seg[0]] + seg[1..] == seg && [seg[1..]][1..] == [];
    }
  }

  lemma {:induction false} SplitAtDot(seg: string, rest: string)
    requires '.' !in seg
    ensures Split(seg + "." + rest) == [seg] + Split(rest)
  {
    var raw := seg + "." + rest;
    if seg == "" {
      assert raw[1..] == rest;
    } else {
      assert seg[0] in seg && forall c :: c in seg[1..] ==> c in seg;
      SplitAtDot(seg[1..], rest);
      assert raw[1..] == seg[1..] + "." + rest && raw[0] == seg[0];
      assert [seg[0]] + seg[1..] == seg && ([seg[1..]] + Split(rest))[1..] == Split(rest);
    }
  }

  /** Joining is undone by splitting, as long as no segment contains the separator. */
  lemma {:induction false} JoinSplit(segs: seq<string>)
    requires segs != [] && forall i :: 0 <= i < |segs| ==> '.' !in segs[i]
    ensures Split(Join(segs)) == segs
  {
    if |segs| == 1 {
      SplitPlain(segs[0]);
    } else {
      JoinSplit(segs[1..]);
      SplitAtDot(segs[0], Join(segs[1..]));
    }
  }

  predicate SegmentOk(seg: string, last: bool)
  {
    && seg != ""
    && ('+' in seg ==> seg == "+")
    && ('#' in seg ==> seg == "#")
    && (seg == "#" ==> last)
  }

  /** Well-formed patterns: `+` and `#` stand alone, and `#` only in last place. */
  predicate ValidPattern(segs: seq<string>)
  {
    segs != [] && forall i :: 0 <= i < |segs| ==> SegmentOk(segs[i], i == |segs| - 1)
  }

  function ParseTopicPattern(raw: string): Result<seq<string>>
  {
    if Blank(raw) || !ValidPattern(Split(raw)) then Invalid else Ok(Split(raw))
  }

  predicate ValidTopic(segs: seq<string>)
  {
    segs != [] && forall i :: 0 <= i < |segs| ==> segs[i] != "" && '+' !in segs[i] && '#' !in segs[i]
  }

  function ParsePublishTopic(raw: string): Result<seq<string>>
  {
    if Blank(raw) || !ValidTopic(Split(raw)) then Invalid else Ok(Split(raw))
  }

  /** An ordinary segment. */
  predicate Word(seg: string) { seg != "" && forall c :: c in seg ==> c != '.' && c != '+' && c != '#' }

  /** A pattern is words and single wildcards, joined by dots, with `#` only at the end. */
  predicate WellFormed(segs: seq<string>)
  {
    segs != [] && forall i :: 0 <= i < |segs| ==> Word(segs[i]) || segs[i] == "+" || (segs[i] == "#" && i == |segs| - 1)
  }

  predicate Words(segs: seq<string>)
  {
    segs != [] && forall i :: 0 <= i < |segs| ==> Word(segs[i])
  }

  lemma SegmentExact(seg: string, last: bool)
    requires '.' !in seg
    ensures SegmentOk(seg, last) <==> Word(seg) || seg == "+" || (seg == "#" && last)
    ensures seg != "" && '+' !in seg && '#' !in seg <==> Word(seg)
  {
    assert '+' in "+" && '#' !in "+" && '#' in "#" && '+' !in "#";
  }

  lemma UndottedWellFormed(segs: seq<string>, i: nat)
    requires WellFormed(segs) && i < |segs|
    ensures '.' !in segs[i]
  {
    assert '.' !in "+" && '.' !in "#";
  }

  /** Exactly the joins of well-formed segments are patterns, unless they are blank, and they
      parse to those segments. */
  lemma ParsePatternExact(raw: string, segs: seq<string>)
    ensures ParseTopicPattern(raw) == Ok(segs) <==> WellFormed(segs) && raw == Join(segs) && !Blank(raw)
  {
    SplitJoin(raw);
    var got := Split(raw);
    forall i | 0 <= i < |got| { SegmentExact(got[i], i == |got| - 1); }
    if WellFormed(segs) && raw == Join(segs) {
      forall i | 0 <= i < |segs| ensures '.' !in segs[i] { UndottedWellFormed(segs, i); }
      JoinSplit(segs);
    }
  }

  /** Exactly the joins of words are topics, unless they are blank. */
  lemma ParseTopicExact(raw: string, segs: seq<string>)
    ensures ParsePublishTopic(raw) == Ok(segs) <==> Words(segs) && raw == Join(segs) && !Blank(raw)
  {
    SplitJoin(raw);
    var got := Split(raw);
    forall i | 0 <= i < |got| { SegmentExact(got[i], i == |got| - 1); }
    if Words(segs) && raw == Join(segs) { JoinSplit(segs); }
  }

  predicate SegmentMatches(p: string, t: string) { p == "+" || p == t }

  predicate EndsWith(p: seq<string>, seg: string)
  {
    p != [] && p[|p| - 1] == seg
  }

  /** The wildcard rules of section 4.7.1 of MQTT 3.1.1 with `.` as separator: `+` stands
      for one segment, a final `#` for any number of trailing segments, including none. */
  predicate Matches(p: seq<string>, topic: seq<string>)
  {
    if EndsWith(p, "#") then
      |p| - 1 <= |topic| && forall i :: 0 <= i < |p| - 1 ==> SegmentMatches(p[i], topic[i])
    else
      |p| == |topic| && forall i :: 0 <= i < |p| ==> SegmentMatches(p[i], topic[i])
  }

  /** The same rules segment by segment: a `#` matches whatever is left, `+` and words match one
      segment each, and at the end nothing may be left. */
  predicate MatchesFrom(p: seq<string>, topic: seq<string>)
  {
    if p == [] then topic == []
    else if p[0] == "#" then true
    else topic != [] && (p[0] == "+" || p[0] == topic[0]) && MatchesFrom(p[1..], topic[1..])
  }

  lemma MatchesStep(p: seq<string>, topic: seq<string>)
    requires |p| > 1 || (p != [] && p[0] != "#")
    ensures Matches(p, topic) <==> topic != [] && SegmentMatches(p[0], topic[0]) && Matches(p[1..], topic[1..])
  {
    if topic != [] {
      assert forall i :: 0 < i < |p| ==> p[i] == p[1..][i - 1];
      assert forall i :: 0 < i < |topic| ==> topic[i] == topic[1..][i - 1];
      var n := if EndsWith(p, "#") then |p| - 1 else |p|;
      if n <= |topic| && SegmentMatches(p[0], topic[0]) && forall i :: 0 <= i < n - 1 ==> SegmentMatches(p[1..][i], topic[1..][i]) {
        forall i | 0 <= i < n ensures SegmentMatches(p[i], topic[i]) {
          if i > 0 { assert SegmentMatches(p[1..][i - 1], topic[1..][i - 1]); }
        }
      }
    }
  }

  lemma {:induction false} MatchesExact(p: seq<string>, topic: seq<string>)
    requires forall i :: 0 <= i < |p| - 1 ==> p[i] != "#"
    ensures Matches(p, topic) <==> MatchesFrom(p, topic)
    decreases |p|
  {
    if p != [] && p[0] != "#" {
      MatchesStep(p, topic);
      if topic != [] { MatchesExact(p[1..], topic[1..]); }
    }
  }
}

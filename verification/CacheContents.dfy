/** What a bounded cache of decoded manifests holds: canonical texts, most recently used first. */
module CacheContents {
  import opened Outcomes
  import opened Utf8
  import opened ManifestValues

  const MAX_ENTRIES := 128
  const MAX_BYTES := 8 * 1024 * 1024

  type Key = Text

  /** The stored-manifest decoder and the digest that keys the cache; the digest may collide. */
  datatype Decoder = Decoder(stored: Text -> Option<(Tree, Text)>, digest: Text -> Key)

  /** The uncached decode: the text must already be the canonical text of what it decodes to. */
  function Exact(d: Decoder, raw: Text): Option<Tree> {
    if raw == [] || d.stored(raw).None? then None
    else
      var (t, canonical) := d.stored(raw).value;
      if raw == canonical then Some(t) else None
  }

  function Total(list: seq<Text>): nat {
    if list == [] then 0 else |list[0]| + Total(list[1..])
  }

  predicate Fits(list: seq<Text>, extra: nat) {
    |list| < MAX_ENTRIES && Total(list) + extra <= MAX_BYTES
  }

  /** What is left when the least recently used texts are dropped until one more text fits. */
  function Kept(list: seq<Text>, extra: nat): seq<Text>
    requires extra <= MAX_BYTES
  {
    if Fits(list, extra) then list
    else if list == [] then []
    else Kept(list[..|list| - 1], extra)
  }

  function Without(d: Decoder, list: seq<Text>, key: Key): seq<Text> {
    if list == [] then [] else if d.digest(list[0]) == key then Without(d, list[1..], key)
        else [list[0]] + Without(d, list[1..], key)
  }

  /** The contents after a text was asked for. */
  function After(d: Decoder, list: seq<Text>, raw: Text): seq<Text> {
    var others := Without(d, list, d.digest(raw));
    if raw in list then [raw] + others
    else if Exact(d, raw).None? || |raw| > MAX_BYTES then list
    else [raw] + Kept(others, |raw|)
  }

  ghost predicate Keyed(d: Decoder, list: seq<Text>) {
    forall i, j :: 0 <= i < j < |list| ==> d.digest(list[i]) != d.digest(list[j])
  }

  /** One text per digest, all decodable, within both limits. */
  ghost predicate Bounded(d: Decoder, list: seq<Text>) {
    && Keyed(d, list) && (forall i :: 0 <= i < |list| ==> Exact(d, list[i]).Some?)
    && |list| <= MAX_ENTRIES && Total(list) <= MAX_BYTES
  }

  // ---------------------------------------------------------------------------
  // Sums and removal
  // ---------------------------------------------------------------------------

  lemma {:induction false} TotalConcat(a: seq<Text>, b: seq<Text>)
    ensures Total(a + b) == Total(a) + Total(b)
  {
    if a == [] {
      assert a + b == b;
    } else {
      assert (a + b)[1..] == a[1..] + b;
      TotalConcat(a[1..], b);
    }
  }

  lemma TotalWithoutAt(list: seq<Text>, at: nat)
    requires at < |list|
    ensures Total(list[..at] + list[at + 1..]) + |list[at]| == Total(list)
  {
    assert list == list[..at] + ([list[at]] + list[at + 1..]);
    TotalConcat(list[..at], [list[at]] + list[at + 1..]);
    TotalConcat([list[at]], list[at + 1..]);
    TotalConcat(list[..at], list[at + 1..]);
    assert Total([list[at]]) == |list[at]|;
  }

  /** With one text per digest, leaving out a digest leaves out at most one place. */
  lemma {:induction false} WithoutAt(d: Decoder, list: seq<Text>, at: nat)
    requires Keyed(d, list) && at < |list|
    ensures Without(d, list, d.digest(list[at])) == list[..at] + list[at + 1..]
  {
    var key := d.digest(list[at]);
    if at == 0 {
      WithoutAbsent(d, list[1..], key);
    } else {
      WithoutAt(d, list[1..], at - 1);
      assert list[..at] == [list[0]] + list[1..][..at - 1] && list[1..][at - 1] == list[at];
    }
  }

  lemma {:induction false} WithoutAbsent(d: Decoder, list: seq<Text>, key: Key)
    requires forall i :: 0 <= i < |list| ==> d.digest(list[i]) != key
    ensures Without(d, list, key) == list
  {
    if list != [] { WithoutAbsent(d, list[1..], key); }
  }

  // ---------------------------------------------------------------------------
  // Eviction
  // ---------------------------------------------------------------------------

  /**
   * Eviction keeps the longest run of most recently used texts that leaves room: only the oldest go, and no more than
   * needed.
   */
  lemma {:induction false} EvictsOldestOnly(list: seq<Text>, extra: nat)
    requires extra <= MAX_BYTES
    ensures var kept := Kept(list, extra);
            && kept <= list && Fits(kept, extra)
            && forall n :: |kept| < n <= |list| ==> !Fits(list[..n], extra)
    decreases |list|
  {
    if Fits(list, extra) {
    } else if list == [] {
      assert false;
    } else {
      var shorter := list[..|list| - 1];
      EvictsOldestOnly(shorter, extra);
      forall n | |Kept(list, extra)| < n <= |list| ensures !Fits(list[..n], extra) {
        if n == |list| { assert list[..n] == list; } else { assert list[..n] == shorter[..n]; }
      }
    }
  }

  /** Asking for a text keeps the contents bounded. */
  lemma AfterKeepsBounds(d: Decoder, list: seq<Text>, raw: Text)
    requires Bounded(d, list)
    ensures Bounded(d, After(d, list, raw))
  {
    hide Exact;
    var key := d.digest(raw);
    var others := Without(d, list, key);
    RemainingIsBounded(d, list, key);
    if raw in list {
      var at :| 0 <= at < |list| && list[at] == raw;
      WithoutAt(d, list, at);
      TotalWithoutAt(list, at);
      TotalConcat([raw], others);
    } else if Exact(d, raw).Some? && |raw| <= MAX_BYTES {
      EvictsOldestOnly(others, |raw|);
      var kept := Kept(others, |raw|);
      TotalConcat([raw], kept);
      assert forall i :: 0 <= i < |kept| ==> kept[i] == others[i];
    }
  }

  lemma RemainingIsBounded(d: Decoder, list: seq<Text>, key: Key)
    requires Bounded(d, list)
    ensures var others := Without(d, list, key);
            Bounded(d, others) && forall i :: 0 <= i < |others| ==> d.digest(others[i]) != key
  {
    if at :| 0 <= at < |list| && d.digest(list[at]) == key {
      WithoutAt(d, list, at);
      TotalWithoutAt(list, at);
    } else {
      WithoutAbsent(d, list, key);
    }
  }

  // ---------------------------------------------------------------------------
  // Whole runs
  // ---------------------------------------------------------------------------

  /** The contents after a sequence of requests to an empty cache. */
  function Contents(d: Decoder, requests: seq<Text>): seq<Text> {
    if requests == [] then [] else After(d, Contents(d, requests[..|requests| - 1]), requests[|requests| - 1])
  }

  /** The position after the last request for a text, or 0 if there was none. */
  function LastUse(requests: seq<Text>, x: Text): nat {
    if requests == [] then 0
    else if requests[|requests| - 1] == x then |requests|
    else LastUse(requests[..|requests| - 1], x)
  }

  ghost predicate RecentFirst(requests: seq<Text>, list: seq<Text>) {
    && (forall i :: 0 <= i < |list| ==> 0 < LastUse(requests, list[i]) <= |requests|)
    && (forall i, j :: 0 <= i < j < |list| ==> LastUse(requests, list[i]) > LastUse(requests, list[j]))
  }

  /** In every run the contents are bounded and ordered by last use, so what is evicted was used least recently. */
  lemma {:induction false} RunIsBoundedAndRecent(d: Decoder, requests: seq<Text>)
    ensures Bounded(d, Contents(d, requests)) && RecentFirst(requests, Contents(d, requests))
  {
    if requests != [] {
      var earlier, raw := requests[..|requests| - 1], requests[|requests| - 1];
      var list := Contents(d, earlier);
      RunIsBoundedAndRecent(d, earlier);
      AfterKeepsBounds(d, list, raw);
      hide Exact, Bounded;
      RequestKeepsRecent(d, earlier, list, raw);
      assert requests == earlier + [raw];
    }
  }

  lemma RequestKeepsRecent(d: Decoder, requests: seq<Text>, list: seq<Text>, raw: Text)
    requires Bounded(d, list) && RecentFirst(requests, list)
    ensures RecentFirst(requests + [raw], After(d, list, raw))
  {
    hide Bounded, RecentFirst;
    var next := After(d, list, raw);
    OthersInOrder(d, requests, list, raw);
    hide After;
    if next == list && raw !in list {
      StillRecent(requests, list, raw);
    } else {
      FrontIsRecent(requests, next[1..], raw);
      assert next == [raw] + next[1..];
    }
  }

  lemma StillRecent(requests: seq<Text>, list: seq<Text>, raw: Text)
    requires RecentFirst(requests, list) && forall i :: 0 <= i < |list| ==> list[i] != raw
    ensures RecentFirst(requests + [raw], list)
  {
    var now := requests + [raw];
    assert now[..|now| - 1] == requests;
  }

  lemma FrontIsRecent(requests: seq<Text>, others: seq<Text>, raw: Text)
    requires RecentFirst(requests, others) && forall i :: 0 <= i < |others| ==> others[i] != raw
    ensures RecentFirst(requests + [raw], [raw] + others)
  {
    var now, next := requests + [raw], [raw] + others;
    StillRecent(requests, others, raw);
    assert LastUse(now, raw) == |now|;
    assert forall i :: 0 <= i < |others| ==> LastUse(now, others[i]) == LastUse(requests, others[i]) by {
      assert now[..|now| - 1] == requests;
    }
    hide LastUse;
    forall i | 0 <= i < |next| ensures next[i] == if i == 0 then raw else others[i - 1] {}
  }

  lemma WithoutInOrder(d: Decoder, requests: seq<Text>, list: seq<Text>, key: Key)
    requires Keyed(d, list) && RecentFirst(requests, list)
    ensures var others := Without(d, list, key);
            RecentFirst(requests, others) && forall i :: 0 <= i < |others| ==> d.digest(others[i]) != key
  {
    if at :| 0 <= at < |list| && d.digest(list[at]) == key {
      var others := Without(d, list, key);
      WithoutAt(d, list, at);
      hide LastUse, Without;
      assert forall i :: 0 <= i < |others| ==> others[i] == list[if i < at then i else i + 1];
    } else {
      WithoutAbsent(d, list, key);
    }
  }

  lemma FirstAreRecent(requests: seq<Text>, list: seq<Text>, some: seq<Text>)
    requires RecentFirst(requests, list) && some <= list
    ensures RecentFirst(requests, some) && forall i :: 0 <= i < |some| ==> some[i] == list[i]
  {
    hide LastUse;
  }

  /** What stays behind a text moved or put in front keeps its order and does not contain it. */
  lemma OthersInOrder(d: Decoder, requests: seq<Text>, list: seq<Text>, raw: Text)
    requires Bounded(d, list) && RecentFirst(requests, list)
    ensures var next := After(d, list, raw);
            next != list || raw in list ==>
              && next != [] && next[0] == raw && RecentFirst(requests, next[1..])
              && forall i :: 0 <= i < |next[1..]| ==> next[1..][i] != raw
  {
    hide Exact, Total;
    var key := d.digest(raw);
    var others := Without(d, list, key);
    WithoutInOrder(d, requests, list, key);
    hide RecentFirst, Without;
    if raw !in list && Exact(d, raw).Some? && |raw| <= MAX_BYTES {
      EvictsOldestOnly(others, |raw|);
      FirstAreRecent(requests, others, Kept(others, |raw|));
    }
  }
}

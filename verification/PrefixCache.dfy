/** plugins/prefix_cache.py: the instruction prefix cache. */
module PrefixCache {
  import opened Collections

  type Prefix(!new, ==, 0)

  // ----- Keys -----

  /** How many leading characters of the text are not white space. */
  function WordEnd(space: char -> bool, text: string): (n: nat)
    ensures n <= |text|
    ensures forall i :: 0 <= i < n ==> !space(text[i])
    ensures n < |text| ==> space(text[n])
  {
    if text == [] || space(text[0]) then 0 else 1 + WordEnd(space, text[1..])
  }

  /** `text.split()`. */
  function Words(space: char -> bool, text: string): seq<string>
    decreases |text|
  {
    if text == [] then []
    else if space(text[0]) then Words(space, text[1..])
    else [text[..WordEnd(space, text)]] + Words(space, text[WordEnd(space, text)..])
  }

  /** `" ".join(words)`. */
  function Join(words: seq<string>): string {
    if words == [] then []
    else if |words| == 1 then words[0]
    else words[0] + " " + Join(words[1..])
  }

  /** `_key` with normalisation. The final strip in the source removes nothing: see NormalizeIsStripped. */
  function Normalize(space: char -> bool, text: string): string {
    Join(Words(space, text))
  }

  predicate IsWord(space: char -> bool, w: string) {
    w != [] && forall i :: 0 <= i < |w| ==> !space(w[i])
  }

  predicate AreWords(space: char -> bool, words: seq<string>) {
    forall i :: 0 <= i < |words| ==> IsWord(space, words[i])
  }

  lemma {:induction false} SplitGivesWords(space: char -> bool, text: string)
    ensures AreWords(space, Words(space, text))
    decreases |text|
  {
    if text != [] {
      if space(text[0]) {
        SplitGivesWords(space, text[1..]);
      } else {
        SplitGivesWords(space, text[WordEnd(space, text)..]);
      }
    }
  }

  lemma {:induction false} WordEndOf(space: char -> bool, w: string, rest: string)
    requires forall i :: 0 <= i < |w| ==> !space(w[i])
    requires rest != [] ==> space(rest[0])
    ensures WordEnd(space, w + rest) == |w|
  {
    if w == [] {
      assert w + rest == rest;
    } else {
      WordEndOf(space, w[1..], rest);
      assert (w + rest)[1..] == w[1..] + rest;
    }
  }

  /** A word that white space or the end follows is split off. */
  lemma WordFirst(space: char -> bool, w: string, rest: string)
    requires IsWord(space, w) && (rest != [] ==> space(rest[0]))
    ensures Words(space, w + rest) == [w] + Words(space, rest)
  {
    var text := w + rest;
    WordEndOf(space, w, rest);
    assert text[0] == w[0];
    assert text[..|w|] == w && text[|w|..] == rest;
  }

  /** What split does, completely: nothing has no words, a text without white space is one word, and a white-space
      character anywhere separates the words before it from the words after it. */
  lemma SplitIs(space: char -> bool, a: string, c: char, b: string)
    requires space(c)
    ensures Words(space, []) == []
    ensures IsWord(space, a) ==> Words(space, a) == [a]
    ensures Words(space, a + [c] + b) == Words(space, a) + Words(space, b)
  {
    if IsWord(space, a) {
      WordFirst(space, a, []);
      assert a + [] == a && [a] + [] == [a];
    }
    SplitAtSpace(space, a, c, b);
  }

  lemma {:induction false} SplitAtSpace(space: char -> bool, a: string, c: char, b: string)
    requires space(c)
    ensures Words(space, a + [c] + b) == Words(space, a) + Words(space, b)
    decreases |a|
  {
    if a == [] {
      SpaceFirst(space, c, b);
      assert a + [c] + b == [c] + b;
    } else if space(a[0]) {
      SplitAtSpace(space, a[1..], c, b);
      SpaceFirst(space, a[0], a[1..]);
      SpaceFirst(space, a[0], a[1..] + [c] + b);
      assert a == [a[0]] + a[1..] && a + [c] + b == [a[0]] + (a[1..] + [c] + b);
    } else {
      SplitInside(space, a, c, b);
      var n := WordEnd(space, a);
      SplitAtSpace(space, a[n..], c, b);
      ConcatAssociates([a[..n]], Words(space, a[n..]), Words(space, b));
    }
  }

  lemma SpaceFirst(space: char -> bool, c: char, rest: string)
    requires space(c)
    ensures Words(space, [c] + rest) == Words(space, rest)
  {
    assert ([c] + rest)[1..] == rest;
  }

  lemma SplitInside(space: char -> bool, a: string, c: char, b: string)
    requires space(c) && a != [] && !space(a[0])
    ensures var n := WordEnd(space, a);
      && n > 0 && Words(space, a) == [a[..n]] + Words(space, a[n..])
      && Words(space, a + [c] + b) == [a[..n]] + Words(space, a[n..] + [c] + b)
  {
    var n := WordEnd(space, a);
    var tail := a[n..] + [c] + b;
    assert tail[0] == if n < |a| then a[n] else c;
    WordFirst(space, a[..n], tail);
    assert a + [c] + b == a[..n] + tail;
  }

  /** Splitting what was joined gives the words back. */
  lemma {:induction false} SplitOfJoin(space: char -> bool, words: seq<string>)
    requires space(' ') && AreWords(space, words)
    ensures Words(space, Join(words)) == words
  {
    if |words| == 1 {
      WordFirst(space, words[0], []);
      assert words[0] + [] == words[0] && words == [words[0]];
    } else if |words| > 1 {
      var rest := " " + Join(words[1..]);
      SplitOfJoin(space, words[1..]);
      WordFirst(space, words[0], rest);
      assert rest[1..] == Join(words[1..]);
      assert Join(words) == words[0] + rest;
    }
  }

  /** Two instructions share a cache entry exactly when they have the same words. */
  lemma SameKeyIffSameWords(space: char -> bool, a: string, b: string)
    requires space(' ')
    ensures Normalize(space, a) == Normalize(space, b) <==> Words(space, a) == Words(space, b)
    ensures Normalize(space, Normalize(space, a)) == Normalize(space, a)
  {
    SplitGivesWords(space, a);
    SplitGivesWords(space, b);
    SplitOfJoin(space, Words(space, a));
    SplitOfJoin(space, Words(space, b));
  }

  lemma {:induction false} JoinEnds(space: char -> bool, words: seq<string>)
    requires AreWords(space, words) && words != []
    ensures var text := Join(words);
      text != [] && !space(text[0]) && !space(text[|text| - 1]) && SingleSpaces(space, text)
  {
    assert IsWord(space, words[0]);
    if |words| > 1 {
      JoinEnds(space, words[1..]);
      var tail := Join(words[1..]);
      var text := words[0] + " " + tail;
      assert text[0] == words[0][0] && text[|text| - 1] == tail[|tail| - 1];
      forall i | 0 <= i < |text| && space(text[i]) ensures text[i] == ' ' && i + 1 < |text| && !space(text[i + 1]) {
        if i > |words[0]| {
          assert text[i] == tail[i - |words[0]| - 1];
        }
      }
    }
  }

  /** White space is one blank at a time, with something after it. */
  predicate SingleSpaces(space: char -> bool, text: string) {
    forall i :: 0 <= i < |text| && space(text[i]) ==> text[i] == ' ' && i + 1 < |text| && !space(text[i + 1])
  }

  lemma NormalizeIsStripped(space: char -> bool, text: string)
    ensures var key := Normalize(space, text);
      && (key != [] ==> !space(key[0]) && !space(key[|key| - 1]))
      && SingleSpaces(space, key)
  {
    SplitGivesWords(space, text);
    if Words(space, text) != [] {
      JoinEnds(space, Words(space, text));
    }
  }

  // ----- The cache -----

  datatype Entry = Entry(key: string, prefix: Prefix)

  /** An OrderedDict from oldest to newest, and the statistics. */
  datatype State = State(entries: seq<Entry>, hits: nat, misses: nat)

  const INIT := State([], 0, 0)

  /** `_key` and the injected prefixer. */
  datatype Setup = Setup(key: string -> string, prefixer: string -> Prefix)

  datatype Event = Get(text: string) | Put(text: string, prefix: Prefix)

  function Keys(entries: seq<Entry>): (r: seq<string>)
    ensures |r| == |entries|
    ensures forall i :: 0 <= i < |r| ==> r[i] == entries[i].key
  {
    seq(|entries|, i requires 0 <= i < |entries| => entries[i].key)
  }

  function Without(entries: seq<Entry>, key: string): seq<Entry> {
    if entries == [] then []
    else (if entries[0].key == key then [] else [entries[0]]) + Without(entries[1..], key)
  }

  /** Store under the key and move it to the end. */
  function Store(entries: seq<Entry>, key: string, prefix: Prefix): seq<Entry> {
    Without(entries, key) + [Entry(key, prefix)]
  }

  /** Drop the oldest entries until the cache fits. */
  function Evict(entries: seq<Entry>, capacity: nat): seq<Entry>
    decreases |entries|
  {
    if |entries| <= capacity then entries else Evict(entries[1..], capacity)
  }

  function Lookup(entries: seq<Entry>, key: string): Prefix
    requires key in Keys(entries)
  {
    entries[IndexOf(Keys(entries), key)].prefix
  }

  function Apply(setup: Setup, capacity: nat, s: State, e: Event): State {
    var key := setup.key(e.text);
    match e
    case Put(_, prefix) => s.(entries := Evict(Store(s.entries, key, prefix), capacity))
    case Get(text) =>
      if key in Keys(s.entries)
      then s.(hits := s.hits + 1, entries := Store(s.entries, key, Lookup(s.entries, key)))
      else s.(misses := s.misses + 1, entries := Evict(Store(s.entries, key, setup.prefixer(text)), capacity))
  }

  function Replay(setup: Setup, capacity: nat, events: seq<Event>): State {
    if events == [] then INIT
    else Apply(setup, capacity, Replay(setup, capacity, events[..|events| - 1]), events[|events| - 1])
  }

  // ----- The simple specification: recency -----

  function RemoveKey(keys: seq<string>, key: string): seq<string> {
    if keys == [] then [] else (if keys[0] == key then [] else [keys[0]]) + RemoveKey(keys[1..], key)
  }

  /** All keys ever touched, each once, in the order of their last touch. */
  function Recency(setup: Setup, events: seq<Event>): seq<string> {
    if events == [] then []
    else
      var key := setup.key(events[|events| - 1].text);
      RemoveKey(Recency(setup, events[..|events| - 1]), key) + [key]
  }

  function Last(keys: seq<string>, n: nat): seq<string> {
    if |keys| <= n then keys else keys[|keys| - n..]
  }

  lemma {:induction false} KeysWithout(entries: seq<Entry>, key: string)
    ensures Keys(Without(entries, key)) == RemoveKey(Keys(entries), key)
  {
    if entries != [] {
      KeysWithout(entries[1..], key);
      assert Keys(entries)[1..] == Keys(entries[1..]);
      assert Keys([entries[0]]) == [entries[0].key];
      KeysConcat(if entries[0].key == key then [] else [entries[0]], Without(entries[1..], key));
    }
  }

  lemma KeysConcat(a: seq<Entry>, b: seq<Entry>)
    ensures Keys(a + b) == Keys(a) + Keys(b)
  {
  }

  lemma {:induction false} KeysEvict(entries: seq<Entry>, capacity: nat)
    ensures Keys(Evict(entries, capacity)) == Last(Keys(entries), capacity)
    decreases |entries|
  {
    if |entries| > capacity {
      KeysEvict(entries[1..], capacity);
      assert Keys(entries[1..]) == Keys(entries)[1..];
      LastOfTail(Keys(entries), capacity);
    }
  }

  lemma LastOfTail(keys: seq<string>, n: nat)
    requires |keys| > n
    ensures Last(keys[1..], n) == Last(keys, n)
  {
  }

  lemma {:induction false} RemoveKeyConcat(a: seq<string>, b: seq<string>, key: string)
    ensures RemoveKey(a + b, key) == RemoveKey(a, key) + RemoveKey(b, key)
  {
    if a == [] {
      assert a + b == b;
    } else {
      RemoveKeyConcat(a[1..], b, key);
      assert (a + b)[1..] == a[1..] + b && (a + b)[0] == a[0];
      if a[0] != key {
        ConcatAssociates([a[0]], RemoveKey(a[1..], key), RemoveKey(b, key));
      }
    }
  }

  lemma ConcatAssociates(a: seq<string>, b: seq<string>, c: seq<string>)
    ensures a + (b + c) == a + b + c
  {
  }

  lemma {:induction false} RemoveKeyFacts(keys: seq<string>, key: string)
    requires Distinct(keys)
    ensures key !in keys ==> RemoveKey(keys, key) == keys
    ensures key in keys ==> |RemoveKey(keys, key)| == |keys| - 1
    ensures Distinct(RemoveKey(keys, key)) && forall x :: x in RemoveKey(keys, key) <==> x in keys && x != key
  {
    if keys != [] {
      var rest := keys[1..];
      assert keys == [keys[0]] + rest;
      assert keys[0] !in rest;
      RemoveKeyFacts(rest, key);
    }
  }

  lemma {:induction false} RecencyIsDistinct(setup: Setup, events: seq<Event>)
    ensures Distinct(Recency(setup, events))
  {
    if events != [] {
      RecencyIsDistinct(setup, events[..|events| - 1]);
      RemoveKeyFacts(Recency(setup, events[..|events| - 1]), setup.key(events[|events| - 1].text));
    }
  }

  lemma LastOfSuffix(x: seq<string>, y: seq<string>, n: nat)
    requires |y| >= n
    ensures Last(x + y, n) == Last(y, n)
  {
  }

  lemma DistinctParts(a: seq<string>, c: seq<string>)
    requires Distinct(a + c)
    ensures Distinct(a) && Distinct(c)
  {
    assert forall i :: 0 <= i < |a| ==> a[i] == (a + c)[i];
    assert forall i :: 0 <= i < |c| ==> c[i] == (a + c)[|a| + i];
  }

  /** Touching a key in the last n of an order and truncating agrees with truncating the touched order. */
  lemma TouchCommutes(order: seq<string>, n: nat, key: string)
    requires Distinct(order) && n > 0
    ensures Last(RemoveKey(Last(order, n), key) + [key], n) == Last(RemoveKey(order, key) + [key], n)
  {
    if |order| > n {
      var a, c := order[..|order| - n], order[|order| - n..];
      assert order == a + c;
      DistinctParts(a, c);
      RemoveKeyConcat(a, c, key);
      RemoveKeyFacts(c, key);
      var short := RemoveKey(c, key) + [key];
      assert RemoveKey(order, key) + [key] == RemoveKey(a, key) + short;
      LastOfSuffix(RemoveKey(a, key), short, n);
    }
  }

  lemma TouchedHitFits(c: seq<string>, key: string, n: nat)
    requires Distinct(c) && key in c && |c| <= n
    ensures Last(RemoveKey(c, key) + [key], n) == RemoveKey(c, key) + [key]
  {
    RemoveKeyFacts(c, key);
  }

  lemma StoreKeys(entries: seq<Entry>, key: string, prefix: Prefix)
    ensures Keys(Store(entries, key, prefix)) == RemoveKey(Keys(entries), key) + [key]
  {
    KeysWithout(entries, key);
    KeysConcat(Without(entries, key), [Entry(key, prefix)]);
  }

  /** LRU, exactly: over any sequential history the cached keys are the `capacity` most recently touched
      distinct keys, oldest first. */
  lemma {:induction false} CacheIsMostRecent(setup: Setup, capacity: nat, events: seq<Event>)
    requires capacity > 0
    ensures Keys(Replay(setup, capacity, events).entries) == Last(Recency(setup, events), capacity)
  {
    if events != [] {
      var before, e := events[..|events| - 1], events[|events| - 1];
      CacheIsMostRecent(setup, capacity, before);
      RecencyIsDistinct(setup, before);
      CacheStep(setup, capacity, Replay(setup, capacity, before), e, Recency(setup, before));
    }
  }

  lemma CacheStep(setup: Setup, capacity: nat, s: State, e: Event, order: seq<string>)
    requires capacity > 0 && Distinct(order) && Keys(s.entries) == Last(order, capacity)
    ensures Keys(Apply(setup, capacity, s, e).entries) ==
            Last(RemoveKey(order, setup.key(e.text)) + [setup.key(e.text)], capacity)
  {
    var key, c := setup.key(e.text), Keys(s.entries);
    TouchCommutes(order, capacity, key);
    if e.Get? && key in c {
      assert forall i, j :: 0 <= i < j < |c| ==> c[i] != c[j];
      TouchedHitFits(c, key, capacity);
      StoreKeys(s.entries, key, Lookup(s.entries, key));
    } else {
      var prefix := if e.Put? then e.prefix else setup.prefixer(e.text);
      StoreKeys(s.entries, key, prefix);
      KeysEvict(Store(s.entries, key, prefix), capacity);
    }
  }

  /** Stack inclusion: on the same history a larger cache contains a smaller one and never has fewer hits. */
  lemma {:induction false} LargerCacheIncludes(setup: Setup, small: nat, large: nat, events: seq<Event>)
    requires 0 < small <= large
    ensures forall key :: key in Keys(Replay(setup, small, events).entries) ==>
                          key in Keys(Replay(setup, large, events).entries)
    ensures Replay(setup, small, events).hits <= Replay(setup, large, events).hits
  {
    CacheIsMostRecent(setup, small, events);
    CacheIsMostRecent(setup, large, events);
    LastNests(Recency(setup, events), small, large);
    if events != [] {
      LargerCacheIncludes(setup, small, large, events[..|events| - 1]);
    }
  }

  lemma LastNests(keys: seq<string>, small: nat, large: nat)
    requires small <= large
    ensures forall key :: key in Last(keys, small) ==> key in Last(keys, large)
  {
    var a, b := Last(keys, small), Last(keys, large);
    assert forall i :: 0 <= i < |a| ==> a[i] == b[|b| - |a| + i];
  }

  /** Hits and misses count the lookups. */
  function Gets(events: seq<Event>): nat {
    if events == [] then 0 else Gets(events[..|events| - 1]) + if events[|events| - 1].Get? then 1 else 0
  }

  lemma {:induction false} StatisticsAddUp(setup: Setup, capacity: nat, events: seq<Event>)
    ensures Replay(setup, capacity, events).hits + Replay(setup, capacity, events).misses == Gets(events)
  {
    if events != [] {
      StatisticsAddUp(setup, capacity, events[..|events| - 1]);
    }
  }

  lemma ReplaySnoc(setup: Setup, capacity: nat, events: seq<Event>, n: nat)
    requires n < |events|
    ensures Replay(setup, capacity, events[..n + 1]) == Apply(setup, capacity, Replay(setup, capacity, events[..n]), events[n])
  {
    assert events[..n + 1][..n] == events[..n];
  }

  /** Gets whose key is among the `capacity` most recently touched ones. */
  function RecentGets(setup: Setup, capacity: nat, events: seq<Event>, n: nat): nat
    requires n <= |events|
  {
    if n == 0 then 0
    else RecentGets(setup, capacity, events, n - 1) +
         if events[n - 1].Get? && setup.key(events[n - 1].text) in Last(Recency(setup, events[..n - 1]), capacity) then 1 else 0
  }

  /** A hit is a get of a recently touched key, and nothing else is. */
  lemma {:induction false} HitsAreRecent(setup: Setup, capacity: nat, events: seq<Event>, n: nat)
    requires capacity > 0 && n <= |events|
    ensures Replay(setup, capacity, events[..n]).hits == RecentGets(setup, capacity, events, n)
  {
    if n > 0 {
      HitsAreRecent(setup, capacity, events, n - 1);
      ReplaySnoc(setup, capacity, events, n - 1);
      CacheIsMostRecent(setup, capacity, events[..n - 1]);
    }
  }

  /** Some call gets or puts the key. */
  ghost predicate Touched(setup: Setup, events: seq<Event>, key: string) {
    exists i :: 0 <= i < |events| && setup.key(events[i].text) == key
  }

  /** Key b has been touched since key a last was. */
  ghost predicate TouchedSince(setup: Setup, events: seq<Event>, a: string, b: string) {
    exists j :: 0 <= j < |events| && setup.key(events[j].text) == b && UntouchedFrom(setup, events, a, j)
  }

  ghost predicate UntouchedFrom(setup: Setup, events: seq<Event>, key: string, j: nat) {
    forall i :: j <= i < |events| ==> setup.key(events[i].text) != key
  }

  lemma {:induction false} RemoveKeyOrder(keys: seq<string>, key: string, i: nat, j: nat) returns (i': nat, j': nat)
    requires i < j < |RemoveKey(keys, key)|
    ensures i' < j' < |keys| && keys[i'] == RemoveKey(keys, key)[i] && keys[j'] == RemoveKey(keys, key)[j]
    ensures keys[i'] != key && keys[j'] != key
  {
    var rest := RemoveKey(keys[1..], key);
    if keys[0] == key {
      i', j' := RemoveKeyOrder(keys[1..], key, i, j);
      i', j' := i' + 1, j' + 1;
    } else if i > 0 {
      i', j' := RemoveKeyOrder(keys[1..], key, i - 1, j - 1);
      i', j' := i' + 1, j' + 1;
    } else {
      j' := RemoveKeyAt(keys[1..], key, j - 1);
      i', j' := 0, j' + 1;
    }
  }

  lemma {:induction false} RemoveKeyAt(keys: seq<string>, key: string, j: nat) returns (j': nat)
    requires j < |RemoveKey(keys, key)|
    ensures j' < |keys| && keys[j'] == RemoveKey(keys, key)[j] != key
  {
    if keys[0] != key && j == 0 {
      j' := 0;
    } else {
      j' := RemoveKeyAt(keys[1..], key, if keys[0] == key then j else j - 1);
      j' := j' + 1;
    }
  }

  lemma TouchedStays(setup: Setup, events: seq<Event>, e: Event, a: string, b: string)
    requires TouchedSince(setup, events, a, b) && setup.key(e.text) != a
    ensures TouchedSince(setup, events + [e], a, b)
  {
    var j :| 0 <= j < |events| && setup.key(events[j].text) == b && UntouchedFrom(setup, events, a, j);
    assert (events + [e])[j] == events[j];
    assert UntouchedFrom(setup, events + [e], a, j);
  }

  lemma TouchedNow(setup: Setup, events: seq<Event>, e: Event, a: string)
    requires setup.key(e.text) != a
    ensures TouchedSince(setup, events + [e], a, setup.key(e.text))
  {
    assert UntouchedFrom(setup, events + [e], a, |events|);
  }

  /** Recency without the recursion: the keys in it are the ones touched, each once, and of two keys the later one has
      been touched since the earlier one last was. */
  lemma {:induction false} RecencyIsLastTouch(setup: Setup, events: seq<Event>)
    ensures Distinct(Recency(setup, events))
    ensures forall key :: key in Recency(setup, events) <==> Touched(setup, events, key)
    ensures forall i, j :: 0 <= i < j < |Recency(setup, events)| ==>
              TouchedSince(setup, events, Recency(setup, events)[i], Recency(setup, events)[j])
  {
    RecencyIsDistinct(setup, events);
    if events != [] {
      var before, e := events[..|events| - 1], events[|events| - 1];
      assert events == before + [e];
      RecencyIsLastTouch(setup, before);
      forall key ensures key in Recency(setup, events) <==> Touched(setup, events, key) {
        RecencyMember(setup, before, e, key);
      }
      RecencyOrder(setup, before, e);
    }
  }

  lemma TouchedNext(setup: Setup, before: seq<Event>, e: Event, key: string)
    ensures Touched(setup, before + [e], key) <==> Touched(setup, before, key) || setup.key(e.text) == key
  {
    var events := before + [e];
    assert events[|before|] == e;
    if i :| 0 <= i < |before| && setup.key(before[i].text) == key {
      assert setup.key(events[i].text) == key;
    }
    if i :| 0 <= i < |events| && setup.key(events[i].text) == key {
      assert i < |before| ==> setup.key(before[i].text) == key;
    }
  }

  lemma RecencyMember(setup: Setup, before: seq<Event>, e: Event, key: string)
    requires key in Recency(setup, before) <==> Touched(setup, before, key)
    requires Distinct(Recency(setup, before))
    ensures key in Recency(setup, before + [e]) <==> Touched(setup, before + [e], key)
  {
    assert (before + [e])[..|before|] == before;
    RemoveKeyFacts(Recency(setup, before), setup.key(e.text));
    TouchedNext(setup, before, e, key);
  }

  lemma RecencyOrder(setup: Setup, before: seq<Event>, e: Event)
    requires Distinct(Recency(setup, before))
    requires forall i, j :: 0 <= i < j < |Recency(setup, before)| ==>
               TouchedSince(setup, before, Recency(setup, before)[i], Recency(setup, before)[j])
    ensures var keys := Recency(setup, before + [e]);
      forall i, j :: 0 <= i < j < |keys| ==> TouchedSince(setup, before + [e], keys[i], keys[j])
  {
    var known, last := Recency(setup, before), setup.key(e.text);
    assert (before + [e])[..|before|] == before;
    var keys := RemoveKey(known, last) + [last];
    forall i, j | 0 <= i < j < |keys| ensures TouchedSince(setup, before + [e], keys[i], keys[j]) {
      if j < |keys| - 1 {
        var i', j' := RemoveKeyOrder(known, last, i, j);
        TouchedStays(setup, before, e, keys[i], keys[j]);
      } else {
        RemoveKeyFacts(known, last);
        assert keys[i] in RemoveKey(known, last);
        TouchedNow(setup, before, e, keys[i]);
      }
    }
  }

  // ----- Values -----

  /** The prefixer's result for some text of the history with this key. */
  ghost predicate Computed(setup: Setup, events: seq<Event>, key: string, prefix: Prefix) {
    exists i :: 0 <= i < |events| && events[i].Get? && setup.key(events[i].text) == key &&
                prefix == setup.prefixer(events[i].text)
  }

  ghost predicate AllComputed(setup: Setup, events: seq<Event>, entries: seq<Entry>) {
    forall i :: 0 <= i < |entries| ==> Computed(setup, events, entries[i].key, entries[i].prefix)
  }

  lemma {:induction false} WithoutKey(entries: seq<Entry>, key: string, x: Entry)
    ensures x in Without(entries, key) <==> x in entries && x.key != key
  {
    if entries != [] {
      WithoutKey(entries[1..], key, x);
      assert entries == [entries[0]] + entries[1..];
    }
  }

  lemma {:induction false} EvictKeeps(entries: seq<Entry>, capacity: nat, x: Entry)
    requires x in Evict(entries, capacity)
    ensures x in entries
    decreases |entries|
  {
    if |entries| > capacity {
      EvictKeeps(entries[1..], capacity, x);
    }
  }

  lemma ComputedExtends(setup: Setup, events: seq<Event>, e: Event, key: string, prefix: Prefix)
    requires Computed(setup, events, key, prefix)
    ensures Computed(setup, events + [e], key, prefix)
  {
    var i :| 0 <= i < |events| && events[i].Get? && setup.key(events[i].text) == key &&
             prefix == setup.prefixer(events[i].text);
    assert (events + [e])[i] == events[i];
  }

  /** Without explicit puts, every cached prefix is what the prefixer returned for some text of the history
      that has the same normalised key, so a hit never returns another instruction's prefix. */
  lemma {:induction false} PrefixesAreComputed(setup: Setup, capacity: nat, events: seq<Event>)
    requires forall i :: 0 <= i < |events| ==> events[i].Get?
    ensures AllComputed(setup, events, Replay(setup, capacity, events).entries)
  {
    if events != [] {
      var before, e := events[..|events| - 1], events[|events| - 1];
      assert events == before + [e];
      PrefixesAreComputed(setup, capacity, before);
      ComputedStep(setup, capacity, before, e, Replay(setup, capacity, before));
    }
  }

  lemma ComputedStep(setup: Setup, capacity: nat, before: seq<Event>, e: Event, s: State)
    requires e.Get? && AllComputed(setup, before, s.entries)
    ensures AllComputed(setup, before + [e], Apply(setup, capacity, s, e).entries)
  {
    var events, key := before + [e], setup.key(e.text);
    var hit := key in Keys(s.entries);
    var latest := Entry(key, if hit then Lookup(s.entries, key) else setup.prefixer(e.text));
    if hit {
      var i := IndexOf(Keys(s.entries), key);
      assert Computed(setup, before, s.entries[i].key, s.entries[i].prefix);
      ComputedExtends(setup, before, e, key, latest.prefix);
    } else {
      assert events[|before|] == e;
      assert Computed(setup, events, key, latest.prefix);
    }
    var stored := Store(s.entries, key, latest.prefix);
    var entries' := Apply(setup, capacity, s, e).entries;
    forall x | x in entries' ensures Computed(setup, events, x.key, x.prefix) {
      if !hit {
        EvictKeeps(stored, capacity, x);
      }
      assert x in stored;
      if x != latest {
        WithoutKey(s.entries, key, x);
        var i :| 0 <= i < |s.entries| && s.entries[i] == x;
        ComputedExtends(setup, before, e, x.key, x.prefix);
      }
    }
  }

  /** Call i stores something under the key: it is a put, or a get that misses. */
  ghost predicate Stores(setup: Setup, capacity: nat, events: seq<Event>, i: nat, key: string) {
    i < |events| && StoresIn(setup, Replay(setup, capacity, events[..i]), events[i], key)
  }

  predicate StoresIn(setup: Setup, s: State, e: Event, key: string) {
    setup.key(e.text) == key && (e.Get? ==> key !in Keys(s.entries))
  }

  /** What a call that stores stores: the prefix it was given, or the one the prefixer computes. */
  function Stored(setup: Setup, e: Event): Prefix {
    match e
    case Put(_, prefix) => prefix
    case Get(text) => setup.prefixer(text)
  }

  /** After a call every entry is the one it stored, or an earlier one under a key it did not store. */
  lemma EntryStep(setup: Setup, capacity: nat, s: State, e: Event, x: Entry)
    requires x in Apply(setup, capacity, s, e).entries
    ensures if StoresIn(setup, s, e, x.key) then x.prefix == Stored(setup, e) else x in s.entries
  {
    var key := setup.key(e.text);
    WithoutKey(s.entries, key, x);
    if e.Get? && key in Keys(s.entries) {
      assert s.entries[IndexOf(Keys(s.entries), key)] == Entry(key, Lookup(s.entries, key));
    } else {
      EvictKeeps(Store(s.entries, key, Stored(setup, e)), capacity, x);
    }
  }

  lemma LastCall(setup: Setup, capacity: nat, events: seq<Event>, n: nat, x: Entry)
    requires n <= |events| && x in Replay(setup, capacity, events[..n]).entries
    ensures n > 0
    ensures if Stores(setup, capacity, events, n - 1, x.key) then x.prefix == Stored(setup, events[n - 1])
            else x in Replay(setup, capacity, events[..n - 1]).entries
  {
    ReplaySnoc(setup, capacity, events, n - 1);
    EntryStep(setup, capacity, Replay(setup, capacity, events[..n - 1]), events[n - 1], x);
  }

  /** Over any history, puts included: a cached prefix is the one that was last stored under its key, by a put or by a get
      that missed. */
  lemma {:induction false} CachedIsLastStored(setup: Setup, capacity: nat, events: seq<Event>, n: nat, x: Entry) returns (i: nat)
    requires n <= |events| && x in Replay(setup, capacity, events[..n]).entries
    ensures i < n && Stores(setup, capacity, events, i, x.key) && x.prefix == Stored(setup, events[i])
    ensures forall j :: i < j < n ==> !Stores(setup, capacity, events, j, x.key)
  {
    LastCall(setup, capacity, events, n, x);
    if Stores(setup, capacity, events, n - 1, x.key) {
      i := n - 1;
    } else {
      i := CachedIsLastStored(setup, capacity, events, n - 1, x);
    }
  }

  // ----- The plugin object -----

  class Plugin {
    const enabled: bool
    const key: string -> string
    const prefixer: Option<string -> Prefix>
    const maxEntries: nat
    var entries: seq<Entry>
    var hits: nat
    var misses: nat

    ghost function Abs(): State
      reads this
    {
      State(entries, hits, misses)
    }

    constructor (enabled: bool, key: string -> string, prefixer: Option<string -> Prefix>, maxEntries: nat)
      requires maxEntries > 0
      ensures this.enabled == enabled && this.key == key && this.prefixer == prefixer && this.maxEntries == maxEntries
      ensures Abs() == INIT
    {
      this.enabled, this.key, this.prefixer, this.maxEntries := enabled, key, prefixer, maxEntries;
      entries, hits, misses := [], 0, 0;
    }

    /** `get_or_compute`. */
    method GetOrCompute(text: string) returns (prefix: Option<Prefix>, hit: bool)
      modifies this
      ensures !enabled ==> prefix == None && !hit && Abs() == old(Abs())
      ensures enabled ==> (hit <==> key(text) in Keys(old(entries)))
      ensures hit ==> prefix == Some(Lookup(old(entries), key(text)))
      ensures enabled && !hit && prefixer.None? ==> prefix == None && Abs() == old(Abs())
      ensures enabled && !hit && prefixer.Some? ==> prefix == Some(prefixer.value(text))
      ensures enabled && prefixer.Some? ==>
                Abs() == Apply(Setup(key, prefixer.value), maxEntries, old(Abs()), Get(text))
      ensures enabled && hit ==>
                entries == Store(old(entries), key(text), prefix.value) && hits == old(hits) + 1 && misses == old(misses)
      ensures enabled && !hit && prefixer.Some? ==> hits == old(hits) && misses == old(misses) + 1
    {
      if !enabled {
        return None, false;
      }
      var k := key(text);
      if k in Keys(entries) {
        hits := hits + 1;
        var p := Lookup(entries, k);
        entries := Store(entries, k, p);
        return Some(p), true;
      }
      if prefixer.None? {
        return None, false;
      }
      var p := prefixer.value(text);
      misses := misses + 1;
      entries := Store(entries, k, p);
      Shrink();
      return Some(p), false;
    }

    /** `put`. */
    method Put(text: string, prefix: Prefix)
      modifies this
      ensures !enabled ==> Abs() == old(Abs())
      ensures enabled ==> entries == Evict(Store(old(entries), key(text), prefix), maxEntries)
      ensures hits == old(hits) && misses == old(misses)
    {
      if !enabled {
        return;
      }
      entries := Store(entries, key(text), prefix);
      Shrink();
    }

    /** The eviction loop. */
    method Shrink()
      modifies `entries
      ensures entries == Evict(old(entries), maxEntries)
    {
      while |entries| > maxEntries
        invariant Evict(entries, maxEntries) == Evict(old(entries), maxEntries)
        decreases |entries|
      {
        entries := entries[1..];
      }
    }
  }
}

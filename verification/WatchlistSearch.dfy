/** The watchlist name search: best candidate over every entry's primary name and aliases, abandoned as
    soon as a candidate reaches 0.99. */
module WatchlistSearch {
  import opened Basics
  import opened Selection
  import opened Phonetics
  import opened NameMatch

  const DECISIVE := 0.99

  datatype Entry = Entry(id: string, name: string, aliases: seq<string>)

  datatype Result = Result(
    hit: bool, score: real, threshold: real, entry: Option<Entry>, explanation: Option<Match>)

  /** A candidate string together with the entry it belongs to. */
  datatype Candidate = Candidate(entry: Entry, name: string)

  function OfEntry(e: Entry, n: nat): (r: seq<Candidate>)
    requires n <= 1 + |e.aliases|
    ensures |r| == n
  {
    seq(n, k requires 0 <= k < n => Candidate(e, if k == 0 then e.name else e.aliases[k - 1]))
  }

  /** Every primary name and alias, in search order. */
  function Flatten(entries: seq<Entry>): seq<Candidate> {
    if entries == [] then []
    else
      var last := entries[|entries| - 1];
      Flatten(entries[..|entries| - 1]) + OfEntry(last, 1 + |last.aliases|)
  }

  /** e is searched under this name. */
  ghost predicate IsNameOf(name: string, e: Entry) { name == e.name || name in e.aliases }

  lemma OfEntryHas(e: Entry, x: Candidate)
    ensures x in OfEntry(e, 1 + |e.aliases|) <==> x.entry == e && IsNameOf(x.name, e)
  {
    var c := OfEntry(e, 1 + |e.aliases|);
    assert c[0] == Candidate(e, e.name);
    forall k | 0 <= k < |e.aliases| ensures c[k + 1] == Candidate(e, e.aliases[k]) {}
    if x in c {
      var k :| 0 <= k < |c| && c[k] == x;
    }
  }

  /** The candidates are every entry under its primary name and under each of its aliases, and nothing else. */
  lemma {:induction false} FlattenHas(entries: seq<Entry>, x: Candidate)
    ensures x in Flatten(entries) <==> x.entry in entries && IsNameOf(x.name, x.entry)
  {
    hide OfEntry, IsNameOf;
    if entries != [] {
      var n := |entries| - 1;
      FlattenHas(entries[..n], x);
      OfEntryHas(entries[n], x);
      assert entries == entries[..n] + [entries[n]];
    }
  }

  /** They come entry by entry, the primary name first and then the aliases in their order. */
  lemma FlattenAt(entries: seq<Entry>, i: nat, k: nat)
    requires i < |entries| && k <= |entries[i].aliases|
    ensures var base := |Flatten(entries[..i])|;
      && |Flatten(entries[..i + 1])| == base + 1 + |entries[i].aliases| <= |Flatten(entries)|
      && Flatten(entries)[base + k] == Candidate(entries[i], if k == 0 then entries[i].name else entries[i].aliases[k - 1])
  {
    FlattenStep(entries, i);
    FlattenGrows(entries, i + 1);
    assert Flatten(entries[..i + 1])[|Flatten(entries[..i])| + k] == OfEntry(entries[i], 1 + |entries[i].aliases|)[k];
  }

  /** Position of the best candidate so far (-1 for none) and its score. */
  datatype Best = Best(score: real, at: int)

  function Scan(c: seq<Candidate>, matcher: string -> Match): Best {
    if c == [] then Best(0.0, -1)
    else
      var n := |c| - 1;
      var b := Scan(c[..n], matcher);
      if b.score >= DECISIVE then b
      else if matcher(c[n].name).score > b.score then Best(matcher(c[n].name).score, n)
      else b
  }

  /** Candidate i is decisive and no earlier one is. */
  ghost predicate FirstDecisive(c: seq<Candidate>, matcher: string -> Match, i: nat) {
    && i < |c|
    && matcher(c[i].name).score >= DECISIVE
    && forall k :: 0 <= k < i ==> matcher(c[k].name).score < DECISIVE
  }

  /** Candidate i is the first of those with the highest score, and the score is positive. */
  ghost predicate FirstMaximum(c: seq<Candidate>, matcher: string -> Match, i: nat) {
    && i < |c|
    && matcher(c[i].name).score > 0.0
    && (forall k :: 0 <= k < |c| ==> matcher(c[k].name).score <= matcher(c[i].name).score)
    && (forall k :: 0 <= k < i ==> matcher(c[k].name).score < matcher(c[i].name).score)
  }

  /** What the search reports: the first decisive candidate if there is one, else the first maximum, else nothing. */
  lemma {:induction false} ScanMeaning(c: seq<Candidate>, matcher: string -> Match)
    ensures var b := Scan(c, matcher);
      && (b.at == -1 ==> b.score == 0.0 && forall k :: 0 <= k < |c| ==> matcher(c[k].name).score <= 0.0)
      && (b.at != -1 ==> 0 <= b.at < |c| && b.score == matcher(c[b.at].name).score > 0.0)
      && (b.at != -1 && b.score >= DECISIVE ==> FirstDecisive(c, matcher, b.at))
      && (b.at != -1 && b.score < DECISIVE ==> FirstMaximum(c, matcher, b.at))
  {
    if c != [] {
      var n := |c| - 1;
      ScanMeaning(c[..n], matcher);
      assert forall k :: 0 <= k < n ==> c[..n][k] == c[k];
    }
  }

  lemma {:induction false} ScanIsSettled(c: seq<Candidate>, d: seq<Candidate>, matcher: string -> Match)
    requires c <= d && Scan(c, matcher).score >= DECISIVE
    ensures Scan(d, matcher) == Scan(c, matcher)
    decreases |d|
  {
    if c != d {
      ScanIsSettled(c, d[..|d| - 1], matcher);
    }
  }

  ghost predicate SomeScores(c: seq<Candidate>, matcher: string -> Match, threshold: real) {
    exists k :: 0 <= k < |c| && matcher(c[k].name).score >= threshold
  }

  predicate Hit(c: seq<Candidate>, matcher: string -> Match, threshold: real) {
    Scan(c, matcher).score >= threshold && Scan(c, matcher).at != -1
  }

  /** For thresholds in (0, 0.99] the search hits exactly when some candidate reaches the threshold.  Above 0.99
      it also has to be the first decisive candidate that does; at or below 0 a candidate still has to score above 0. */
  lemma HitIffSomeScores(c: seq<Candidate>, matcher: string -> Match, threshold: real)
    ensures threshold <= 0.0 ==>
      (Hit(c, matcher, threshold) <==> exists k :: 0 <= k < |c| && matcher(c[k].name).score > 0.0)
    ensures 0.0 < threshold <= DECISIVE ==> (Hit(c, matcher, threshold) <==> SomeScores(c, matcher, threshold))
    ensures threshold > DECISIVE ==>
      (Hit(c, matcher, threshold) <==> exists i: nat :: FirstDecisive(c, matcher, i) && matcher(c[i].name).score >= threshold)
  {
    ScanMeaning(c, matcher);
    var b := Scan(c, matcher);
    if b.at != -1 && b.score >= DECISIVE {
      forall i: nat | FirstDecisive(c, matcher, i) ensures i == b.at {}
    }
  }

  // ---------- The search with the real scorer ----------

  /** The scorer of a query: tokens splits a normalised name, letters gives a token's upper-cased letters. */
  function Scorer(query: string, tokens: string -> seq<string>, letters: string -> string): string -> Match {
    name => MatchOf(tokens(query), tokens(name), t => SoundexCode(letters(t)), t => MetaphoneCode(letters(t)))
  }

  const DEFAULT_THRESHOLD := 0.85

  predicate HasLetter(query: string, tokens: string -> seq<string>, letters: string -> string) {
    var q := tokens(query);
    q != [] && letters(q[Longest(q)]) != ""
  }

  lemma OwnScore(query: string, tokens: string -> seq<string>, letters: string -> string)
    ensures Scorer(query, tokens, letters)(query).score >= DEFAULT_THRESHOLD <==> HasLetter(query, tokens, letters)
  {
    hide NameScore, MetaphoneCode, SoundexCode;
    var q := tokens(query);
    if q != [] { SelfHitIff(q, letters); }
  }

  /** At the default threshold a corpus that lists the queried name is always hit, whatever else it lists, exactly
      when the longest token of the name has a letter. */
  lemma ListedNameHitsIff(e: Entry, query: string, tokens: string -> seq<string>, letters: string -> string)
    ensures
      (forall c: seq<Candidate>, k :: 0 <= k < |c| && c[k].name == query ==> Hit(c, Scorer(query, tokens, letters), DEFAULT_THRESHOLD))
      <==> HasLetter(query, tokens, letters)
  {
    hide Scorer, HasLetter, Hit;
    var m := Scorer(query, tokens, letters);
    OwnScore(query, tokens, letters);
    forall c: seq<Candidate>, k | 0 <= k < |c| && c[k].name == query && m(query).score >= DEFAULT_THRESHOLD
      ensures Hit(c, m, DEFAULT_THRESHOLD)
    {
      HitIffSomeScores(c, m, DEFAULT_THRESHOLD);
    }
    if m(query).score < DEFAULT_THRESHOLD {
      var c := [Candidate(e, query)];
      HitIffSomeScores(c, m, DEFAULT_THRESHOLD);
      assert c[0].name == query && !Hit(c, m, DEFAULT_THRESHOLD);
    }
  }

  /** Codes of two tokens agree and are not empty. */
  predicate SoundAlike(x: string, y: string, letters: string -> string) {
    && SoundexCode(letters(x)) == SoundexCode(letters(y)) != ""
    && MetaphoneCode(letters(x)) == MetaphoneCode(letters(y)) != ""
  }

  /** A primary name of at least 28 letters that differs from the query in the last one and sounds like it hides an
      exact alias from every threshold above its own score. */
  lemma LongNearNameHidesAlias(e: Entry, u: string, a: char, b: char, query: string, tokens: string -> seq<string>,
                               letters: string -> string, threshold: real)
    requires |e.aliases| == 1 && e.aliases[0] == query && |u| >= 27 && a != b
    requires tokens(e.name) == [u + [a]] && tokens(query) == [u + [b]] && SoundAlike(u + [a], u + [b], letters)
    requires 1.0 - 0.28 / (|u| + 1) as real < threshold <= 1.0
    ensures var m := Scorer(query, tokens, letters);
      !Hit(OfEntry(e, 2), m, threshold) && SomeScores(OfEntry(e, 2), m, threshold)
  {
    hide NameScore, MetaphoneCode, SoundexCode, Hit, SomeScores;
    var m := Scorer(query, tokens, letters);
    var soundex, metaphone := (t: string) => SoundexCode(letters(t)), (t: string) => MetaphoneCode(letters(t));
    LastLetterScore(u, a, b, soundex, metaphone);
    ExactScore(u + [b], soundex, metaphone);
    assert m(e.name).score == 1.0 - 0.28 / (|u| + 1) as real;
    LargeEnough(|u| + 1);
    EarlyExitCanMiss(e, m, threshold);
  }

  lemma ExactScore(x: string, soundex: string -> string, metaphone: string -> string)
    requires soundex(x) != "" && metaphone(x) != ""
    ensures NameScore([x], [x], soundex, metaphone) == 1.0
  {
    hide NameScore;
    SelfScore([x], soundex, metaphone);
  }

  lemma LargeEnough(n: nat)
    requires n >= 28
    ensures 0.99 <= 1.0 - 0.28 / n as real
  {
    RatioInUnit(28.0, n as real);
    assert 0.28 / n as real == 0.01 * (28.0 / n as real);
  }

  const STEM := "srivenkatanarasimharajuvaripet"
  const UPPER_STEM := "SRIVENKATANARASIMHARAJUVARIPET"

  /** Srivenkatanarasimharajuvaripeta is listed with the alias Srivenkatanarasimharajuvaripete: searching for the
      alias at any threshold from 0.991 on misses it. */
  lemma AliasIsMissed(e: Entry, tokens: string -> seq<string>, letters: string -> string, threshold: real)
    requires e.name == STEM + "a" && e.aliases == [STEM + "e"] && 0.991 <= threshold <= 1.0
    requires tokens(STEM + "a") == [STEM + "a"] && tokens(STEM + "e") == [STEM + "e"]
    requires letters(STEM + "a") == UPPER_STEM + "A" && letters(STEM + "e") == UPPER_STEM + "E"
    ensures var m := Scorer(STEM + "e", tokens, letters);
      !Hit(OfEntry(e, 2), m, threshold) && SomeScores(OfEntry(e, 2), m, threshold)
  {
    hide STEM, UPPER_STEM, Hit, SomeScores, MetaphoneCode, SoundexCode;
    StemsSoundAlike();
    LongNearNameHidesAlias(e, STEM, 'a', 'e', STEM + "e", tokens, letters, threshold);
  }

  lemma StemsSoundAlike()
    ensures |STEM| == 30
    ensures SoundexCode(UPPER_STEM + "A") == SoundexCode(UPPER_STEM + "E") != ""
    ensures MetaphoneCode(UPPER_STEM + "A") == MetaphoneCode(UPPER_STEM + "E") != ""
  {
    VowelsDoNotMatter(UPPER_STEM + "A", UPPER_STEM + "E");
    HeardAtOnce(UPPER_STEM + "A");
  }

  /** The early exit costs hits above 0.99: the second candidate is exact but never looked at. */
  lemma EarlyExitCanMiss(e: Entry, matcher: string -> Match, threshold: real)
    requires |e.aliases| == 1
    requires DECISIVE <= matcher(e.name).score < threshold <= matcher(e.aliases[0]).score
    ensures !Hit(OfEntry(e, 2), matcher, threshold) && SomeScores(OfEntry(e, 2), matcher, threshold)
  {
    var c := OfEntry(e, 2);
    assert c[..1][..0] == [];
    assert Scan(c[..1], matcher) == Best(matcher(e.name).score, 0);
    assert matcher(c[1].name).score >= threshold;
  }

  /** The running variables of the search agree with a scan of the candidates seen so far. */
  ghost predicate Tracks(c: seq<Candidate>, matcher: string -> Match, score: real, entry: Option<Entry>, m: Option<Match>) {
    var b := Scan(c, matcher);
    && score == b.score
    && if b.at == -1 then entry == None && m == None
       else 0 <= b.at < |c| && entry == Some(c[b.at].entry) && m == Some(matcher(c[b.at].name))
  }

  /** Looking at one more candidate while nothing decisive has been found. */
  lemma TracksStep(c: seq<Candidate>, x: Candidate, matcher: string -> Match,
                   score: real, entry: Option<Entry>, m: Option<Match>)
    requires Tracks(c, matcher, score, entry, m) && score < DECISIVE
    ensures var r := matcher(x.name);
      if r.score > score then Tracks(c + [x], matcher, r.score, Some(x.entry), Some(r))
      else Tracks(c + [x], matcher, score, entry, m)
  {
    assert (c + [x])[..|c|] == c;
  }

  lemma TracksSettled(c: seq<Candidate>, d: seq<Candidate>, matcher: string -> Match,
                      score: real, entry: Option<Entry>, m: Option<Match>)
    requires c <= d && Tracks(c, matcher, score, entry, m) && (score >= DECISIVE || c == d)
    ensures Tracks(d, matcher, score, entry, m)
  {
    if c != d { ScanIsSettled(c, d, matcher); }
  }

  class MatchEngine {
    const threshold: real
    const cacheTtl: int
    var nameCache: seq<Entry>
    var cacheLoadedAt: int

    constructor (threshold: real, cacheTtl: int)
      ensures this.threshold == threshold && this.cacheTtl == cacheTtl
      ensures nameCache == []
    {
      this.threshold, this.cacheTtl := threshold, cacheTtl;
      nameCache, cacheLoadedAt := [], 0;
    }

    /** Reload the corpus unless a non-empty one younger than the TTL is in memory. */
    method EnsureCache(now: int, active: seq<Entry>)
      modifies this
      ensures if old(nameCache) != [] && now - old(cacheLoadedAt) < cacheTtl
              then nameCache == old(nameCache) && cacheLoadedAt == old(cacheLoadedAt)
              else nameCache == active && cacheLoadedAt == now
    {
      if nameCache != [] && now - cacheLoadedAt < cacheTtl { return; }
      nameCache := active;
      cacheLoadedAt := now;
    }

    /** Inner loop: the primary name, then the aliases, of one entry. */
    static method TryEntry(entry: Entry, matcher: string -> Match, ghost before: seq<Candidate>,
                           score: real, best: Option<Entry>, explanation: Option<Match>)
      returns (bestScore: real, bestEntry: Option<Entry>, bestMatch: Option<Match>)
      requires Tracks(before, matcher, score, best, explanation) && score < DECISIVE
      ensures Tracks(before + OfEntry(entry, 1 + |entry.aliases|), matcher, bestScore, bestEntry, bestMatch)
    {
      hide Tracks;
      bestScore, bestEntry, bestMatch := score, best, explanation;
      var candidates := [entry.name] + entry.aliases;
      var k := 0;
      assert before + OfEntry(entry, 0) == before;
      while k < |candidates|
        invariant 0 <= k <= |candidates|
        invariant Tracks(before + OfEntry(entry, k), matcher, bestScore, bestEntry, bestMatch)
        invariant bestScore < DECISIVE
      {
        var m := matcher(candidates[k]);
        ghost var seen := before + OfEntry(entry, k);
        assert before + OfEntry(entry, k + 1) == seen + [Candidate(entry, candidates[k])];
        TracksStep(seen, Candidate(entry, candidates[k]), matcher, bestScore, bestEntry, bestMatch);
        k := k + 1;
        if m.score > bestScore {
          bestScore, bestEntry, bestMatch := m.score, Some(entry), Some(m);
          if bestScore >= DECISIVE {
            break;
          }
        }
      }
      TracksSettled(before + OfEntry(entry, k), before + OfEntry(entry, 1 + |entry.aliases|), matcher,
                    bestScore, bestEntry, bestMatch);
    }

    /** Outer loop over the entries of the corpus. */
    static method Search(entries: seq<Entry>, matcher: string -> Match)
      returns (bestScore: real, bestEntry: Option<Entry>, bestMatch: Option<Match>)
      ensures Tracks(Flatten(entries), matcher, bestScore, bestEntry, bestMatch)
    {
      bestScore, bestEntry, bestMatch := 0.0, None, None;
      var i := 0;
      while i < |entries|
        invariant 0 <= i <= |entries|
        invariant Tracks(Flatten(entries[..i]), matcher, bestScore, bestEntry, bestMatch)
        invariant bestScore < DECISIVE
      {
        FlattenStep(entries, i);
        bestScore, bestEntry, bestMatch :=
          TryEntry(entries[i], matcher, Flatten(entries[..i]), bestScore, bestEntry, bestMatch);
        i := i + 1;
        if bestScore >= DECISIVE {
          FlattenGrows(entries, i);
          TracksSettled(Flatten(entries[..i]), Flatten(entries), matcher, bestScore, bestEntry, bestMatch);
          return;
        }
      }
      assert entries[..i] == entries;
    }

    method CheckName(now: int, active: seq<Entry>, matcher: string -> Match) returns (r: Result)
      modifies this
      ensures nameCache == if old(nameCache) != [] && now - old(cacheLoadedAt) < cacheTtl then old(nameCache) else active
      ensures r.threshold == threshold
      ensures var c := Flatten(nameCache); var b := Scan(c, matcher);
        && r.score == b.score
        && r.hit == Hit(c, matcher, threshold)
        && (!r.hit ==> r.entry == None && r.explanation == None)
        && (r.hit ==> 0 <= b.at < |c|)
        && (r.hit ==> r.entry == Some(c[b.at].entry) && r.explanation == Some(matcher(c[b.at].name)))
      ensures 0.0 < threshold <= 0.99 ==>
        (r.hit <==> exists e, name :: e in nameCache && IsNameOf(name, e) && matcher(name).score >= threshold)
      ensures r.hit ==>
        && r.entry.value in nameCache
        && exists name :: IsNameOf(name, r.entry.value) && r.explanation == Some(matcher(name))
    {
      EnsureCache(now, active);
      var bestScore, bestEntry, bestMatch := Search(nameCache, matcher);
      var hit := bestScore >= threshold && bestEntry != None;
      r := Result(hit, bestScore, threshold, if hit then bestEntry else None, if hit then bestMatch else None);
      SomeNameScores(nameCache, matcher, threshold);
      HitIffSomeScores(Flatten(nameCache), matcher, threshold);
      if hit { FlattenHas(nameCache, Flatten(nameCache)[Scan(Flatten(nameCache), matcher).at]); }
    }
  }

  lemma SomeNameScores(entries: seq<Entry>, matcher: string -> Match, threshold: real)
    ensures SomeScores(Flatten(entries), matcher, threshold) <==>
      exists e, name :: e in entries && IsNameOf(name, e) && matcher(name).score >= threshold
  {
    var c := Flatten(entries);
    if k :| 0 <= k < |c| && matcher(c[k].name).score >= threshold {
      FlattenHas(entries, c[k]);
      assert c[k].entry in entries && IsNameOf(c[k].name, c[k].entry);
    }
    if e, name :| e in entries && IsNameOf(name, e) && matcher(name).score >= threshold {
      FlattenHas(entries, Candidate(e, name));
      var k :| 0 <= k < |c| && c[k] == Candidate(e, name);
      assert matcher(c[k].name).score >= threshold;
    }
  }

  lemma FlattenStep(entries: seq<Entry>, i: nat)
    requires i < |entries|
    ensures Flatten(entries[..i + 1]) == Flatten(entries[..i]) + OfEntry(entries[i], 1 + |entries[i].aliases|)
  {
    assert entries[..i + 1][..i] == entries[..i];
  }

  lemma {:induction false} FlattenGrows(entries: seq<Entry>, n: nat)
    requires n <= |entries|
    ensures Flatten(entries[..n]) <= Flatten(entries)
    decreases |entries|
  {
    if n < |entries| {
      var m := |entries| - 1;
      assert entries[..m][..n] == entries[..n];
      FlattenGrows(entries[..m], n);
    } else {
      assert entries[..n] == entries;
    }
  }
}

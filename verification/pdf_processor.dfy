/** Retrieval side of the chat client: the sentence scanner and greedy
    chunk packer (`splitIntoChunks`), the pairing of chunks with their
    embeddings (`processPDF`) and the top-K selection (`findRelevantChunks`).
    Text extraction and the embedding engine are inputs; similarity scores
    are integers, of which only the order is used. */
module PdfProcessor {
  import opened Common

  // ---------------------------------------------------------------------------
  // Sentences: the global matches of /[^.!?]+[.!?]+/g

  predicate IsTerminator(c: char) {
    c == '.' || c == '!' || c == '?'
  }

  predicate AllTerminators(s: string) {
    forall i :: 0 <= i < |s| ==> IsTerminator(s[i])
  }

  predicate NoTerminators(s: string) {
    forall i :: 0 <= i < |s| ==> !IsTerminator(s[i])
  }

  /** One match of `[^.!?]+[.!?]+`: a non-empty run of non-terminators
      followed by a non-empty run of terminators. */
  predicate IsSentence(s: string) {
    && |s| >= 2
    && !IsTerminator(s[0])
    && IsTerminator(s[|s| - 1])
    && forall i :: 0 <= i < |s| - 1 && IsTerminator(s[i]) ==> IsTerminator(s[i + 1])
  }

  /** Length of the longest prefix whose characters are all terminators
      (`term`) or all non-terminators (`!term`). */
  function Run(s: string, term: bool): (n: nat)
    ensures n <= |s|
    ensures forall i :: 0 <= i < n ==> IsTerminator(s[i]) == term
    ensures n < |s| ==> IsTerminator(s[n]) != term
  {
    if |s| == 0 || IsTerminator(s[0]) != term then 0 else 1 + Run(s[1..], term)
  }

  /** The regular-expression scan: at a terminator the match fails and the
      scan moves one character on; at a non-terminator both runs are taken
      greedily, and a run that reaches the end of the text matches nothing. */
  function Sentences(text: string): (r: seq<string>)
    ensures forall i :: 0 <= i < |r| ==> IsSentence(r[i])
    ensures NoTerminators(text) ==> r == []
    decreases |text|
  {
    if |text| == 0 then []
    else if IsTerminator(text[0]) then Sentences(text[1..])
    else
      if Run(text, false) == |text| then []
      else
        var m := MatchEnd(text);
        MatchIsSentence(text);
        [text[..m]] + Sentences(text[m..])
  }

  /** `text` is some terminators, then the sentences, then a fragment with no
      terminator in it. */
  ghost predicate Splits(text: string, r: seq<string>) {
    exists lead, tail :: text == lead + Concat(r) + tail && AllTerminators(lead) && NoTerminators(tail)
  }

  /** Every character of the text is accounted for: the matches are
      contiguous, only leading terminators are skipped, and only a final
      fragment without a terminator is dropped. */
  lemma {:induction false} SentencesCover(text: string)
    ensures Splits(text, Sentences(text))
    decreases |text|
  {
    if |text| == 0 {
      CoverEmpty(text);
    } else if IsTerminator(text[0]) {
      SentencesCover(text[1..]);
      CoverSkip(text);
    } else if Run(text, false) == |text| {
      CoverEmpty(text);
    } else {
      var m := MatchEnd(text);
      SentencesCover(text[m..]);
      CoverMatch(text);
    }
  }

  /** Where the match starting at a non-terminator ends. */
  function MatchEnd(text: string): (m: nat)
    requires |text| > 0 && Run(text, false) < |text|
    ensures Run(text, false) < m <= |text|
    ensures forall i :: Run(text, false) <= i < m ==> IsTerminator(text[i])
    ensures m < |text| ==> !IsTerminator(text[m])
  {
    var n := Run(text, false);
    TerminatorRunAt(text, n);
    n + Run(text[n..], true)
  }

  /** The run of terminators starting at position `n`, in the text's own
      positions. */
  lemma TerminatorRunAt(text: string, n: nat)
    requires n <= |text|
    ensures var k := Run(text[n..], true);
      && (forall i :: n <= i < n + k ==> IsTerminator(text[i]))
      && (n + k < |text| ==> !IsTerminator(text[n + k]))
  {
    var k := Run(text[n..], true);
    forall i | n <= i < n + k ensures IsTerminator(text[i]) {
      assert text[i] == text[n..][i - n];
    }
    if n + k < |text| {
      assert text[n + k] == text[n..][k];
    }
  }

  /** The text up to the end of the match is one sentence. */
  lemma MatchIsSentence(text: string)
    requires |text| > 0 && !IsTerminator(text[0]) && Run(text, false) < |text|
    ensures IsSentence(text[..MatchEnd(text)])
  {
    var n, m := Run(text, false), MatchEnd(text);
    var x := text[..m];
    assert n > 0;
    forall i | 0 <= i < |x| - 1 && IsTerminator(x[i]) ensures IsTerminator(x[i + 1]) {
      assert i >= n;
    }
  }

  /** Text with no terminator after its leading terminators has no match. */
  lemma CoverEmpty(text: string)
    requires |text| == 0 || (!IsTerminator(text[0]) && Run(text, false) == |text|)
    ensures Splits(text, Sentences(text))
  {
    assert Sentences(text) == [];
    assert text == "" + Concat([]) + text;
    assert AllTerminators("") && NoTerminators(text);
  }

  lemma CoverSkip(text: string)
    requires |text| > 0 && IsTerminator(text[0])
    requires Splits(text[1..], Sentences(text[1..]))
    ensures Splits(text, Sentences(text))
  {
    assert Sentences(text) == Sentences(text[1..]);
    SplitsSkip(text[0], text[1..], Sentences(text[1..]));
    assert [text[0]] + text[1..] == text;
  }

  lemma CoverMatch(text: string)
    requires |text| > 0 && !IsTerminator(text[0]) && Run(text, false) < |text|
    requires Splits(text[MatchEnd(text)..], Sentences(text[MatchEnd(text)..]))
    ensures Splits(text, Sentences(text))
  {
    var m := MatchEnd(text);
    assert Sentences(text) == [text[..m]] + Sentences(text[m..]);
    SplitsMatch(text, m, Sentences(text[m..]));
  }

  /** A skipped leading terminator joins the leading run. */
  lemma SplitsSkip(c: char, t: string, r: seq<string>)
    requires IsTerminator(c) && Splits(t, r)
    ensures Splits([c] + t, r)
  {
    var lead, tail :| t == lead + Concat(r) + tail && AllTerminators(lead) && NoTerminators(tail);
    var body := Concat(r);
    assert [c] + t == ([c] + lead) + body + tail;
    assert AllTerminators([c] + lead) by {
      forall i | 0 <= i < |[c] + lead| ensures IsTerminator(([c] + lead)[i]) {
        if i > 0 {
          assert ([c] + lead)[i] == lead[i - 1];
        }
      }
    }
  }

  /** A match `text[..m]` followed by text that does not start with a
      terminator. */
  lemma SplitsMatch(text: string, m: nat, rest: seq<string>)
    requires m <= |text| && Splits(text[m..], rest)
    requires m < |text| ==> !IsTerminator(text[m])
    ensures Splits(text, [text[..m]] + rest)
  {
    var t := text[m..];
    var lead, tail :| t == lead + Concat(rest) + tail && AllTerminators(lead) && NoTerminators(tail);
    assert |lead| == 0 by {
      assert t[..|lead|] == lead;
    }
    assert t == Concat(rest) + tail by {
      assert lead + Concat(rest) == Concat(rest);
    }
    assert text == text[..m] + t;
    SplitsPrepend(text[..m], t, rest, tail);
  }

  /** A sentence in front of a text made of sentences and a final fragment. */
  lemma SplitsPrepend(x: string, t: string, rest: seq<string>, tail: string)
    requires t == Concat(rest) + tail && NoTerminators(tail)
    ensures Splits(x + t, [x] + rest)
  {
    assert Concat([x] + rest) == x + Concat(rest) by {
      assert ([x] + rest)[1..] == rest;
    }
    assert x + t == "" + Concat([x] + rest) + tail;
    assert AllTerminators("");
  }

  // ---------------------------------------------------------------------------
  // Packing sentences into chunks

  /** `String.prototype.length`: characters outside the Basic Multilingual
      Plane count as two UTF-16 code units. */
  function Units(s: string): (n: nat)
    ensures |s| <= n <= 2 * |s|
  {
    if |s| == 0 then 0 else Units(s[..|s| - 1]) + (if s[|s| - 1] as int > 0xFFFF then 2 else 1)
  }

  /** A string has one code unit per character exactly when it stays inside
      the Basic Multilingual Plane. */
  lemma {:induction false} UnitsIsLength(s: string)
    ensures Units(s) == |s| <==> forall i :: 0 <= i < |s| ==> s[i] as int <= 0xFFFF
  {
    if |s| > 0 {
      var p := s[..|s| - 1];
      UnitsIsLength(p);
      assert forall i :: 0 <= i < |p| ==> p[i] == s[i];
    }
  }

  lemma {:induction false} UnitsAppend(a: string, b: string)
    ensures Units(a + b) == Units(a) + Units(b)
    decreases |b|
  {
    if |b| == 0 {
      assert a + b == a;
    } else {
      assert (a + b)[..|a + b| - 1] == a + b[..|b| - 1];
      UnitsAppend(a, b[..|b| - 1]);
    }
  }

  /** The loop's `currentChunk` after `currentChunk += sentence + ' '` for
      each sentence of the group. */
  function Join(g: seq<string>): string {
    if |g| == 0 then "" else Join(g[..|g| - 1]) + g[|g| - 1] + " "
  }

  function Spaced(s: string): string {
    s + " "
  }

  /** The chunk text is every sentence followed by one space, in order and
      with nothing else in between. */
  lemma {:induction false} JoinIsSpacedConcat(g: seq<string>)
    ensures Join(g) == Concat(Map(Spaced, g))
    decreases |g|
  {
    if |g| > 0 {
      var j := |g| - 1;
      JoinIsSpacedConcat(g[..j]);
      var m := Map(Spaced, g[..j]);
      assert Map(Spaced, g) == m + [Spaced(g[j])];
      ConcatAppend(m, Spaced(g[j]));
    }
  }

  /** `currentChunk.length`, counted sentence by sentence: each sentence's
      code units and one for the space after it. */
  function Width(g: seq<string>): nat {
    if |g| == 0 then 0 else Width(g[..|g| - 1]) + Units(g[|g| - 1]) + 1
  }

  lemma {:induction false} WidthIsLength(g: seq<string>)
    ensures Units(Join(g)) == Width(g)
    decreases |g|
  {
    if |g| > 0 {
      var j := |g| - 1;
      WidthIsLength(g[..j]);
      UnitsAppend(Join(g[..j]) + g[j], " ");
      UnitsAppend(Join(g[..j]), g[j]);
      assert Units(" ") == Units("") + 1;
    }
  }

  /** The chunk a group of sentences becomes: `currentChunk.trim()`. */
  function ChunkText(g: seq<string>): string {
    Trim(Join(g))
  }

  function Texts(gs: seq<seq<string>>): (r: seq<string>)
    ensures |r| == |gs|
    ensures forall i :: 0 <= i < |gs| ==> r[i] == ChunkText(gs[i])
  {
    Map(ChunkText, gs)
  }

  function Flatten(gs: seq<seq<string>>): seq<string> {
    if |gs| == 0 then [] else gs[0] + Flatten(gs[1..])
  }

  /** The packing loop with `cur` as the sentences of `currentChunk`: the
      current chunk is closed only when it is non-empty and the next
      sentence would take it over the limit. */
  function PackFrom(ss: seq<string>, limit: int, cur: seq<string>): seq<seq<string>>
    decreases |ss|
  {
    if |ss| == 0 then (if |cur| > 0 then [cur] else [])
    else if Width(cur) + Units(ss[0]) > limit && |cur| > 0 then [cur] + PackFrom(ss[1..], limit, [ss[0]])
    else PackFrom(ss[1..], limit, cur + [ss[0]])
  }

  function Pack(ss: seq<string>, limit: int): seq<seq<string>> {
    PackFrom(ss, limit, [])
  }

  /** Every sentence after the first was added to the group while the
      group so far plus that sentence was within the limit. */
  predicate Fits(g: seq<string>, limit: int) {
    forall j :: 1 <= j < |g| ==> Width(g[..j]) + Units(g[j]) <= limit
  }

  /** Reference definition of a greedy packing: the groups cover the
      sentences in order, each group fits, and each group was closed only
      because the first sentence of the next one did not fit. */
  ghost predicate GreedyPacking(ss: seq<string>, limit: int, gs: seq<seq<string>>) {
    && Flatten(gs) == ss
    && AllFit(gs, limit)
    && Closed(gs, limit)
  }

  /** Every group is non-empty and fits. */
  ghost predicate AllFit(gs: seq<seq<string>>, limit: int) {
    forall i :: 0 <= i < |gs| ==> |gs[i]| > 0 && Fits(gs[i], limit)
  }

  /** Every group but the last was closed because the next sentence did not fit. */
  ghost predicate Closed(gs: seq<seq<string>>, limit: int)
    requires AllFit(gs, limit)
  {
    forall i :: 0 <= i < |gs| - 1 ==> Width(gs[i]) + Units(gs[i + 1][0]) > limit
  }

  lemma FitsExtend(cur: seq<string>, x: string, limit: int)
    requires Fits(cur, limit)
    requires |cur| > 0 ==> Width(cur) + Units(x) <= limit
    ensures Fits(cur + [x], limit)
  {
    var c := cur + [x];
    forall j | 1 <= j < |c| ensures Width(c[..j]) + Units(c[j]) <= limit {
      if j < |cur| {
        assert c[..j] == cur[..j] && c[j] == cur[j];
      } else {
        assert c[..j] == cur && c[j] == x;
      }
    }
  }

  /** Closing the current group in front of the groups that follow. */
  lemma GreedyClose(cur: seq<string>, ss: seq<string>, limit: int, rest: seq<seq<string>>)
    requires |cur| > 0 && Fits(cur, limit) && |ss| > 0
    requires Width(cur) + Units(ss[0]) > limit
    requires GreedyPacking(ss, limit, rest)
    requires |rest| > 0 && |rest[0]| >= 1 && rest[0][0] == ss[0]
    ensures GreedyPacking(cur + ss, limit, [cur] + rest)
  {
    FlattenCons(cur, rest);
    ClosedCons(cur, rest, limit);
  }

  lemma FlattenCons(g: seq<string>, rest: seq<seq<string>>)
    ensures Flatten([g] + rest) == g + Flatten(rest)
  {
    assert ([g] + rest)[1..] == rest;
  }

  lemma FitCons(g: seq<string>, rest: seq<seq<string>>, limit: int)
    requires |g| > 0 && Fits(g, limit) && AllFit(rest, limit)
    ensures AllFit([g] + rest, limit)
  {
    var gs := [g] + rest;
    forall i | 0 <= i < |gs| ensures |gs[i]| > 0 && Fits(gs[i], limit) {
      if i > 0 {
        assert gs[i] == rest[i - 1];
      }
    }
  }

  lemma ClosedCons(g: seq<string>, rest: seq<seq<string>>, limit: int)
    requires |g| > 0 && Fits(g, limit) && AllFit(rest, limit) && Closed(rest, limit)
    requires |rest| > 0 && Width(g) + Units(rest[0][0]) > limit
    ensures AllFit([g] + rest, limit) && Closed([g] + rest, limit)
  {
    FitCons(g, rest, limit);
    var gs := [g] + rest;
    forall i | 0 <= i < |gs| - 1 ensures Width(gs[i]) + Units(gs[i + 1][0]) > limit {
      assert gs[i + 1] == rest[i];
      if i > 0 {
        assert gs[i] == rest[i - 1];
      }
    }
  }

  /** What the packer guarantees when started with `cur` as the current
      group: a greedy packing of `cur + ss` whose first group extends `cur`. */
  ghost predicate PackedFrom(ss: seq<string>, limit: int, cur: seq<string>, gs: seq<seq<string>>) {
    && GreedyPacking(cur + ss, limit, gs)
    && (|cur| > 0 ==> |gs| > 0 && |gs[0]| >= |cur| && gs[0][..|cur|] == cur)
  }

  lemma {:induction false} PackFromGreedy(ss: seq<string>, limit: int, cur: seq<string>)
    requires Fits(cur, limit)
    ensures PackedFrom(ss, limit, cur, PackFrom(ss, limit, cur))
    decreases |ss|
  {
    if |ss| == 0 {
      PackEnd(limit, cur);
    } else if Width(cur) + Units(ss[0]) > limit && |cur| > 0 {
      PackFromGreedy(ss[1..], limit, [ss[0]]);
      PackClose(ss, limit, cur);
    } else {
      FitsExtend(cur, ss[0], limit);
      PackFromGreedy(ss[1..], limit, cur + [ss[0]]);
      PackAppend(ss, limit, cur);
    }
  }

  lemma PackEnd(limit: int, cur: seq<string>)
    requires Fits(cur, limit)
    ensures PackedFrom([], limit, cur, PackFrom([], limit, cur))
  {
    assert cur + [] == cur;
    if |cur| > 0 {
      assert Flatten([cur]) == cur + Flatten([]);
    }
  }

  lemma PackClose(ss: seq<string>, limit: int, cur: seq<string>)
    requires |ss| > 0 && |cur| > 0 && Fits(cur, limit)
    requires Width(cur) + Units(ss[0]) > limit
    requires PackedFrom(ss[1..], limit, [ss[0]], PackFrom(ss[1..], limit, [ss[0]]))
    ensures PackedFrom(ss, limit, cur, PackFrom(ss, limit, cur))
  {
    var rest := PackFrom(ss[1..], limit, [ss[0]]);
    PackFromClose(ss, limit, cur);
    assert ss == [ss[0]] + ss[1..];
    PackedFromClose(ss[0], ss[1..], limit, cur, rest);
  }

  /** Closing the open group when the next sentence does not fit keeps the
      packing. */
  lemma PackedFromClose(x: string, more: seq<string>, limit: int, cur: seq<string>, rest: seq<seq<string>>)
    requires |cur| > 0 && Fits(cur, limit) && Width(cur) + Units(x) > limit
    requires PackedFrom(more, limit, [x], rest)
    ensures PackedFrom([x] + more, limit, cur, [cur] + rest)
  {
    assert rest[0][0] == x by {
      assert rest[0][..1] == [x];
    }
    GreedyClose(cur, [x] + more, limit, rest);
  }

  lemma PackAppend(ss: seq<string>, limit: int, cur: seq<string>)
    requires |ss| > 0 && !(Width(cur) + Units(ss[0]) > limit && |cur| > 0)
    requires PackedFrom(ss[1..], limit, cur + [ss[0]], PackFrom(ss[1..], limit, cur + [ss[0]]))
    ensures PackedFrom(ss, limit, cur, PackFrom(ss, limit, cur))
  {
    var gs := PackFrom(ss[1..], limit, cur + [ss[0]]);
    PackFromAppend(ss, limit, cur);
    assert ss == [ss[0]] + ss[1..];
    PackedFromShift(ss[0], ss[1..], limit, cur, gs);
  }

  /** Moving a sentence from the input into the open group keeps the
      packing. */
  lemma PackedFromShift(x: string, rest: seq<string>, limit: int, cur: seq<string>, gs: seq<seq<string>>)
    requires PackedFrom(rest, limit, cur + [x], gs)
    ensures PackedFrom([x] + rest, limit, cur, gs)
  {
    var cur' := cur + [x];
    assert GreedyPacking(cur + ([x] + rest), limit, gs) by {
      assert cur' + rest == cur + ([x] + rest);
    }
    if |cur| > 0 {
      assert gs[0][..|cur|] == cur by {
        assert gs[0][..|cur|] == gs[0][..|cur'|][..|cur|];
      }
    }
  }

  /** The packer builds the greedy packing of its sentences. */
  lemma PackIsGreedy(ss: seq<string>, limit: int)
    ensures GreedyPacking(ss, limit, Pack(ss, limit))
  {
    PackFromGreedy(ss, limit, []);
    assert [] + ss == ss;
  }

  /** There is only one greedy packing, so the reference definition pins the
      packer's output down completely. */
  lemma {:induction false} GreedyPackingUnique(ss: seq<string>, limit: int, a: seq<seq<string>>, b: seq<seq<string>>)
    requires GreedyPacking(ss, limit, a) && GreedyPacking(ss, limit, b)
    ensures a == b
    decreases |a|
  {
    if |a| == 0 || |b| == 0 {
    } else {
      FirstGroupPrefix(ss, limit, a);
      FirstGroupPrefix(ss, limit, b);
      if |a[0]| < |b[0]| {
        GreedyCut(ss, limit, a);
        FitsPrefix(ss, limit, b, |a[0]|);
        assert false;
      }
      if |b[0]| < |a[0]| {
        GreedyCut(ss, limit, b);
        FitsPrefix(ss, limit, a, |b[0]|);
        assert false;
      }
      TailGreedy(ss, limit, a);
      TailGreedy(ss, limit, b);
      GreedyPackingUnique(ss[|a[0]|..], limit, a[1..], b[1..]);
      assert a == [a[0]] + a[1..] && b == [b[0]] + b[1..];
    }
  }

  lemma FirstGroupPrefix(ss: seq<string>, limit: int, a: seq<seq<string>>)
    requires GreedyPacking(ss, limit, a) && |a| > 0
    ensures 0 < |a[0]| <= |ss|
    ensures a[0] == ss[..|a[0]|]
    ensures ss[|a[0]|..] == Flatten(a[1..])
  {
    assert ss == a[0] + Flatten(a[1..]);
  }

  /** Where a greedy packing cuts, the next sentence did not fit. */
  lemma GreedyCut(ss: seq<string>, limit: int, a: seq<seq<string>>)
    requires GreedyPacking(ss, limit, a) && |a| > 0 && |a[0]| < |ss|
    ensures Width(ss[..|a[0]|]) + Units(ss[|a[0]|]) > limit
  {
    FirstGroupPrefix(ss, limit, a);
    var rest := Flatten(a[1..]);
    assert |a| > 1;
    assert rest == a[1] + Flatten(a[2..]);
    assert ss[|a[0]|] == rest[0] == a[1][0];
  }

  /** Inside a group, every sentence fitted. */
  lemma FitsPrefix(ss: seq<string>, limit: int, b: seq<seq<string>>, k: int)
    requires GreedyPacking(ss, limit, b) && |b| > 0 && 1 <= k < |b[0]|
    ensures Width(ss[..k]) + Units(ss[k]) <= limit
  {
    FirstGroupPrefix(ss, limit, b);
    assert b[0][..k] == ss[..k] && b[0][k] == ss[k];
  }

  lemma TailGreedy(ss: seq<string>, limit: int, a: seq<seq<string>>)
    requires GreedyPacking(ss, limit, a) && |a| > 0
    ensures GreedyPacking(ss[|a[0]|..], limit, a[1..])
  {
    assert ss == a[0] + Flatten(a[1..]);
    assert ss[|a[0]|..] == Flatten(a[1..]);
    forall i | 0 <= i < |a[1..]| - 1
      ensures Width(a[1..][i]) + Units(a[1..][i + 1][0]) > limit
    {
      assert a[1..][i] == a[i + 1] && a[1..][i + 1] == a[i + 2];
    }
  }

  /** Non-empty groups: never more groups than sentences. */
  lemma {:induction false} GroupCount(gs: seq<seq<string>>)
    requires forall i :: 0 <= i < |gs| ==> |gs[i]| > 0
    ensures |gs| <= |Flatten(gs)|
  {
    if |gs| > 0 {
      GroupCount(gs[1..]);
    }
  }

  /** Every sentence of a group is one of the flattened sentences. */
  lemma {:induction false} GroupInSentences(gs: seq<seq<string>>, i: int)
    requires 0 <= i < |gs|
    ensures forall s :: s in gs[i] ==> s in Flatten(gs)
  {
    if i > 0 {
      GroupInSentences(gs[1..], i - 1);
    }
  }

  lemma GroupOfSentences(sentences: seq<string>, chunkSize: int, i: int)
    requires forall k :: 0 <= k < |sentences| ==> IsSentence(sentences[k])
    requires 0 <= i < |Pack(sentences, chunkSize)|
    ensures var g := Pack(sentences, chunkSize)[i];
      |g| > 0 && forall k :: 0 <= k < |g| ==> IsSentence(g[k])
  {
    var gs := Pack(sentences, chunkSize);
    PackIsGreedy(sentences, chunkSize);
    GroupInSentences(gs, i);
    forall k | 0 <= k < |gs[i]| ensures IsSentence(gs[i][k]) {
      assert gs[i][k] in gs[i];
      assert gs[i][k] in sentences;
    }
  }

  /** A chunk as the packer emits it: non-empty, without surrounding white
      space, and ending in a terminator. */
  predicate WellFormedChunk(c: string) {
    && |c| > 0
    && !IsSpace(c[0])
    && !IsSpace(c[|c| - 1])
    && IsTerminator(c[|c| - 1])
  }

  lemma TrimEndDropsSpace(y: string)
    requires |y| > 0 && !IsSpace(y[|y| - 1])
    ensures TrimEnd(y + " ") == y
  {
    var x := y + " ";
    var e := TrimEnd(x);
    assert x[|y|] == ' ' && x[|y| - 1] == y[|y| - 1];
  }

  /** Trimming `y + " "` keeps the last character of `y` and never adds
      length. */
  lemma TrimmedChunk(y: string)
    requires |y| > 0 && !IsSpace(y[|y| - 1])
    ensures var t := Trim(y + " ");
      |t| > 0 && t[|t| - 1] == y[|y| - 1] && !IsSpace(t[0]) && Units(t) <= Units(y)
  {
    TrimEndDropsSpace(y);
    var t := TrimStart(y);
    assert Trim(y + " ") == t;
    assert y == y[..|y| - |t|] + t;
    UnitsAppend(y[..|y| - |t|], t);
  }

  /** Trimming a group's text removes the appended space and any leading
      white space and nothing at the end; a group of two or more sentences
      therefore stays within the limit, and only a single sentence longer
      than the limit can produce an oversized chunk. */
  lemma ChunkTextShape(g: seq<string>, limit: int)
    requires |g| > 0 && forall i :: 0 <= i < |g| ==> IsSentence(g[i])
    ensures WellFormedChunk(ChunkText(g))
    ensures |g| >= 2 && Fits(g, limit) ==> Units(ChunkText(g)) <= limit
  {
    var j := |g| - 1;
    var y := Join(g[..j]) + g[j];
    assert Join(g) == y + " ";
    assert IsSentence(g[j]);
    assert y[|y| - 1] == g[j][|g[j]| - 1];
    TrimmedChunk(y);
    if |g| >= 2 && Fits(g, limit) {
      UnitsAppend(Join(g[..j]), g[j]);
      WidthIsLength(g[..j]);
      assert Width(g[..j]) + Units(g[j]) <= limit;
    }
  }

  /** `splitIntoChunks(text, chunkSize)`, as the loop is written: sentences
      are appended to `currentChunk` with a trailing space, and the trimmed
      chunk is emitted when the next sentence would not fit. */
  method SplitIntoChunks(text: string, chunkSize: int) returns (chunks: seq<string>)
    ensures chunks == Texts(Pack(Sentences(text), chunkSize))
    ensures |chunks| <= |Sentences(text)|
    ensures forall i :: 0 <= i < |chunks| ==> WellFormedChunk(chunks[i])
    ensures NoTerminators(text) ==> chunks == []
  {
    var sentences := Sentences(text);
    chunks := PackSentences(sentences, chunkSize);
    ChunksWellFormed(sentences, chunkSize);
  }

  /** The loop of `splitIntoChunks` over the sentences. */
  method PackSentences(sentences: seq<string>, chunkSize: int) returns (chunks: seq<string>)
    ensures chunks == Texts(Pack(sentences, chunkSize))
  {
    chunks := [];
    var currentChunk := "";
    var cur: seq<string> := [];
    ghost var total := Texts(Pack(sentences, chunkSize));
    LoopInit(sentences, chunkSize);
    for i := 0 to |sentences|
      invariant LoopState(sentences, i, chunks, currentChunk, cur, chunkSize, total)
    {
      chunks, currentChunk, cur := PackStep(sentences, i, chunks, currentChunk, chunkSize, cur, total);
    }
    LoopEnd(sentences, chunks, currentChunk, cur, chunkSize, total);
    if |currentChunk| > 0 {
      chunks := chunks + [Trim(currentChunk)];
    }
  }

  /** One iteration of the `splitIntoChunks` loop: push the trimmed chunk
      when the sentence would overflow a non-empty chunk, then append the
      sentence and a space. */
  method PackStep(sentences: seq<string>, i: nat, chunks: seq<string>, currentChunk: string, chunkSize: int,
                  cur: seq<string>, ghost total: seq<string>)
    returns (chunks': seq<string>, currentChunk': string, cur': seq<string>)
    requires i < |sentences| && LoopState(sentences, i, chunks, currentChunk, cur, chunkSize, total)
    ensures LoopState(sentences, i + 1, chunks', currentChunk', cur', chunkSize, total)
  {
    var sentence := sentences[i];
    if Units(currentChunk) + Units(sentence) > chunkSize && |currentChunk| > 0 {
      LoopClose(sentences, i, chunks, currentChunk, cur, chunkSize, total);
      chunks' := chunks + [Trim(currentChunk)];
      // `currentChunk = ''` followed by the append
      currentChunk' := sentence + " ";
      cur' := [sentence];
    } else {
      LoopAppend(sentences, i, chunks, currentChunk, cur, chunkSize, total);
      chunks' := chunks;
      currentChunk' := currentChunk + sentence + " ";
      cur' := cur + [sentence];
    }
  }

  /** The loop invariant of `PackSentences`: `currentChunk` holds the
      sentences `cur`, and the chunks pushed so far followed by what the
      packer makes of the rest give the packer's whole result. */
  ghost predicate LoopState(sentences: seq<string>, i: nat, chunks: seq<string>, currentChunk: string,
                            cur: seq<string>, limit: int, total: seq<string>) {
    && i <= |sentences|
    && currentChunk == Join(cur)
    && (|currentChunk| > 0 <==> |cur| > 0)
    && chunks + Texts(PackFrom(sentences[i..], limit, cur)) == total
  }

  lemma LoopInit(sentences: seq<string>, limit: int)
    ensures LoopState(sentences, 0, [], "", [], limit, Texts(Pack(sentences, limit)))
  {
    assert sentences[0..] == sentences;
  }

  /** Loop step of `PackSentences` when the current chunk is closed. */
  lemma LoopClose(sentences: seq<string>, i: nat, chunks: seq<string>, currentChunk: string,
                  cur: seq<string>, limit: int, total: seq<string>)
    requires i < |sentences| && LoopState(sentences, i, chunks, currentChunk, cur, limit, total)
    requires Units(currentChunk) + Units(sentences[i]) > limit && |currentChunk| > 0
    ensures LoopState(sentences, i + 1, chunks + [Trim(currentChunk)], sentences[i] + " ",
                      [sentences[i]], limit, total)
  {
    var x := sentences[i];
    var rest := PackFrom(sentences[i + 1..], limit, [x]);
    assert PackFrom(sentences[i..], limit, cur) == [cur] + rest by {
      var ss := sentences[i..];
      assert ss[0] == x && ss[1..] == sentences[i + 1..];
      WidthIsLength(cur);
      PackFromClose(ss, limit, cur);
    }
    assert (chunks + [Trim(currentChunk)]) + Texts(rest) == total by {
      TextsCons(cur, rest);
      Regroup(chunks, ChunkText(cur), Texts(rest), total);
    }
    JoinSingle(x);
  }

  /** Loop step of `PackSentences` when the sentence joins the current chunk. */
  lemma LoopAppend(sentences: seq<string>, i: nat, chunks: seq<string>, currentChunk: string,
                   cur: seq<string>, limit: int, total: seq<string>)
    requires i < |sentences| && LoopState(sentences, i, chunks, currentChunk, cur, limit, total)
    requires !(Units(currentChunk) + Units(sentences[i]) > limit && |currentChunk| > 0)
    ensures LoopState(sentences, i + 1, chunks, currentChunk + sentences[i] + " ",
                      cur + [sentences[i]], limit, total)
  {
    var ss := sentences[i..];
    assert ss[0] == sentences[i] && ss[1..] == sentences[i + 1..];
    WidthIsLength(cur);
    PackFromAppend(ss, limit, cur);
    JoinAppend(cur, ss[0]);
  }

  lemma LoopEnd(sentences: seq<string>, chunks: seq<string>, currentChunk: string,
                cur: seq<string>, limit: int, total: seq<string>)
    requires LoopState(sentences, |sentences|, chunks, currentChunk, cur, limit, total)
    ensures (if |currentChunk| > 0 then chunks + [Trim(currentChunk)] else chunks) == total
  {
    assert sentences[|sentences|..] == [];
    PackStepEnd(limit, cur);
  }

  lemma PackFromAppend(ss: seq<string>, limit: int, cur: seq<string>)
    requires |ss| > 0 && !(Width(cur) + Units(ss[0]) > limit && |cur| > 0)
    ensures PackFrom(ss, limit, cur) == PackFrom(ss[1..], limit, cur + [ss[0]])
  {
  }

  lemma PackFromClose(ss: seq<string>, limit: int, cur: seq<string>)
    requires |ss| > 0 && |cur| > 0 && Width(cur) + Units(ss[0]) > limit
    ensures PackFrom(ss, limit, cur) == [cur] + PackFrom(ss[1..], limit, [ss[0]])
  {
  }

  lemma Regroup<T>(a: seq<T>, x: T, b: seq<T>, total: seq<T>)
    requires a + ([x] + b) == total
    ensures (a + [x]) + b == total
  {
  }

  lemma TextsCons(g: seq<string>, rest: seq<seq<string>>)
    ensures Texts([g] + rest) == [ChunkText(g)] + Texts(rest)
  {
    MapCons(ChunkText, g, rest);
  }

  lemma PackStepEnd(limit: int, cur: seq<string>)
    ensures Texts(PackFrom([], limit, cur)) == if |cur| > 0 then [ChunkText(cur)] else []
  {
    if |cur| > 0 {
      assert PackFrom([], limit, cur) == [cur];
      assert Texts([cur])[0] == ChunkText(cur);
    } else {
      assert PackFrom([], limit, cur) == [];
    }
  }

  lemma JoinSingle(x: string)
    ensures Join([x]) == x + " "
  {
    assert [x][..0] == [];
  }

  lemma JoinAppend(g: seq<string>, s: string)
    ensures Join(g + [s]) == Join(g) + s + " "
  {
    assert (g + [s])[..|g|] == g;
  }

  lemma ChunksWellFormed(sentences: seq<string>, chunkSize: int)
    requires forall i :: 0 <= i < |sentences| ==> IsSentence(sentences[i])
    ensures var chunks := Texts(Pack(sentences, chunkSize));
      && |chunks| <= |sentences|
      && forall i :: 0 <= i < |chunks| ==> WellFormedChunk(chunks[i])
  {
    var gs := Pack(sentences, chunkSize);
    PackIsGreedy(sentences, chunkSize);
    GroupCount(gs);
    forall i | 0 <= i < |gs| ensures WellFormedChunk(ChunkText(gs[i])) {
      GroupOfSentences(sentences, chunkSize, i);
      ChunkTextShape(gs[i], chunkSize);
    }
  }

  /** The size bound of the packer: a chunk made of two or more sentences
      has at most `chunkSize` UTF-16 code units. */
  lemma ChunkSizeBound(text: string, chunkSize: int, i: int)
    requires 0 <= i < |Pack(Sentences(text), chunkSize)|
    requires |Pack(Sentences(text), chunkSize)[i]| >= 2
    ensures Units(Texts(Pack(Sentences(text), chunkSize))[i]) <= chunkSize
  {
    var gs := Pack(Sentences(text), chunkSize);
    PackIsGreedy(Sentences(text), chunkSize);
    GroupOfSentences(Sentences(text), chunkSize, i);
    ChunkTextShape(gs[i], chunkSize);
  }

  // ---------------------------------------------------------------------------
  // Embedding inputs and the chunk/embedding pairing

  /** The chunk size `processPDF` uses (the default argument). */
  const ChunkSize: int := 1000

  /** The instruction prefixed to a search query before it is embedded. */
  const QueryInstruction: string := "Represent this sentence for searching relevant passages: "

  datatype DocumentChunk<E> = DocumentChunk(text: string, embedding: E)

  /** `[CLS] ${chunk} [SEP]`, the embedding model's input format. */
  function EmbeddingInput(chunk: string): (r: string)
    ensures |r| == |chunk| + 12
    ensures r[..6] == "[CLS] " && r[6..|r| - 6] == chunk && r[|r| - 6..] == " [SEP]"
  {
    "[CLS] " + chunk + " [SEP]"
  }

  /** The wrapping adds twelve UTF-16 code units to the chunk's `length`. */
  lemma EmbeddingInputUnits(chunk: string)
    ensures Units(EmbeddingInput(chunk)) == Units(chunk) + 12
  {
    UnitsAppend("[CLS] " + chunk, " [SEP]");
    UnitsAppend("[CLS] ", chunk);
    UnitsIsLength("[CLS] ");
    UnitsIsLength(" [SEP]");
  }

  /** The query goes through the same wrapping, with the instruction in front. */
  function QueryInput(query: string): (r: string)
    ensures r == EmbeddingInput(QueryInstruction + query)
  {
    "[CLS] " + QueryInstruction + query + " [SEP]"
  }

  /** Different chunks are never sent as the same embedding input. */
  lemma EmbeddingInputInjective(a: string, b: string)
    requires EmbeddingInput(a) == EmbeddingInput(b)
    ensures a == b
  {
    assert a == EmbeddingInput(a)[6..|EmbeddingInput(a)| - 6];
  }

  /** Why `processPDF` rejects: the `embeddings.create` call itself was
      rejected, or `embeddings.data[i]` is undefined for some chunk. */
  datatype PdfError = EmbeddingRejected | MissingEmbedding

  /** `processPDF` after text extraction: chunk the text, wrap each chunk for
      the embedding model, and pair chunk `i` with embedding `i`. `embed` is
      the embedding engine: `None` when its promise rejects, otherwise its
      vectors, of any number. The engine is asked even when there are no
      chunks. */
  method ProcessPdf<E>(fullText: string, embed: seq<string> -> Option<seq<E>>)
    returns (inputs: seq<string>, r: Result<seq<DocumentChunk<E>>, PdfError>)
    ensures var chunks := Texts(Pack(Sentences(fullText), ChunkSize));
      && |inputs| == |chunks|
      && (forall i :: 0 <= i < |chunks| ==> inputs[i] == EmbeddingInput(chunks[i]))
      && (r == Err(EmbeddingRejected) <==> embed(inputs).None?)
      && (r == Err(MissingEmbedding) <==> embed(inputs).Some? && |embed(inputs).value| < |chunks|)
      && (r.Ok? ==> |r.value| == |chunks|
                    && forall i :: 0 <= i < |chunks| ==> r.value[i] == DocumentChunk(chunks[i], embed(inputs).value[i]))
  {
    var chunks := SplitIntoChunks(fullText, ChunkSize);
    inputs := seq(|chunks|, i requires 0 <= i < |chunks| => EmbeddingInput(chunks[i]));
    var answer := embed(inputs);
    match answer {
      case None =>
        r := Err(EmbeddingRejected);
      case Some(data) =>
        if |data| < |chunks| {
          r := Err(MissingEmbedding);
        } else {
          r := Ok(seq(|chunks|, i requires 0 <= i < |chunks| => DocumentChunk(chunks[i], data[i])));
        }
    }
  }

  // ---------------------------------------------------------------------------
  // Top-K selection

  datatype Scored = Scored(index: nat, similarity: int)

  /** `documentChunks.map((chunk, index) => ({ index, similarity }))`, where
      `similarity` scores a chunk embedding against the query embedding. */
  function Scores<E>(chunks: seq<DocumentChunk<E>>, similarity: E -> int): (r: seq<Scored>)
    ensures |r| == |chunks|
    ensures forall i :: 0 <= i < |r| ==> r[i] == Scored(i, similarity(chunks[i].embedding))
  {
    seq(|chunks|, i requires 0 <= i < |chunks| => Scored(i, similarity(chunks[i].embedding)))
  }

  /** The end position of `slice(0, k)` on a list of length `n`: a negative
      `k` counts back from the end. */
  function SliceEnd(n: nat, k: int): (e: nat)
    ensures e <= n
    ensures 0 <= k ==> e == (if k < n then k else n)
    ensures k < 0 ==> e == (if n + k > 0 then n + k else 0)
  {
    if k < 0 then (if n + k > 0 then n + k else 0) else if k < n then k else n
  }

  /** The scores kept after sorting by non-increasing similarity and slicing:
      distinct chunks, in non-increasing order, and no chunk left out scores
      higher than one kept. */
  function Selected<E>(chunks: seq<DocumentChunk<E>>, similarity: E -> int, topK: int): (sel: seq<Scored>)
    ensures |sel| == SliceEnd(|chunks|, topK)
    ensures multiset(sel) <= multiset(Scores(chunks, similarity))
    ensures forall i :: 0 <= i < |sel| ==>
      sel[i].index < |chunks| && sel[i].similarity == similarity(chunks[sel[i].index].embedding)
    ensures forall i, j :: 0 <= i < j < |sel| ==> sel[i].similarity >= sel[j].similarity
    ensures forall x, i :: x in Scores(chunks, similarity) && x !in sel && 0 <= i < |sel| ==>
      x.similarity <= sel[i].similarity
  {
    var k := SliceEnd(|chunks|, topK);
    RankedPrefix(chunks, similarity, k);
    SortDesc(Scores(chunks, similarity), SimilarityOf)[..k]
  }

  /** The sort key of `sort((a, b) => b.similarity - a.similarity)`. */
  function SimilarityOf(x: Scored): int {
    x.similarity
  }

  /** The facts `Selected` promises, for any prefix of the ranked scores. */
  lemma RankedPrefix<E>(chunks: seq<DocumentChunk<E>>, similarity: E -> int, k: nat)
    requires k <= |chunks|
    ensures var all := Scores(chunks, similarity);
      var sel := SortDesc(all, SimilarityOf)[..k];
      && multiset(sel) <= multiset(all)
      && (forall i :: 0 <= i < |sel| ==>
            sel[i].index < |chunks| && sel[i].similarity == similarity(chunks[sel[i].index].embedding))
      && (forall i, j :: 0 <= i < j < |sel| ==> sel[i].similarity >= sel[j].similarity)
      && (forall x, i :: x in all && x !in sel && 0 <= i < |sel| ==> x.similarity <= sel[i].similarity)
  {
    var all := Scores(chunks, similarity);
    var ranked := SortDesc(all, SimilarityOf);
    PrefixOfPermutation(ranked, all, k);
    PrefixRanksFirst(ranked, k, SimilarityOf);
    var sel := ranked[..k];
    forall i | 0 <= i < |sel|
      ensures sel[i].index < |chunks| && sel[i].similarity == similarity(chunks[sel[i].index].embedding)
    {
      assert sel[i] in sel;
      ScoresMember(chunks, similarity, sel[i]);
    }
    forall i, j | 0 <= i < j < |sel| ensures sel[i].similarity >= sel[j].similarity {
      assert SimilarityOf(sel[i]) >= SimilarityOf(sel[j]);
    }
    forall x, i | x in all && x !in sel && 0 <= i < |sel| ensures x.similarity <= sel[i].similarity {
      assert SimilarityOf(x) <= SimilarityOf(sel[i]);
    }
  }

  /** A score in the list belongs to the chunk it names. */
  lemma ScoresMember<E>(chunks: seq<DocumentChunk<E>>, similarity: E -> int, y: Scored)
    requires y in Scores(chunks, similarity)
    ensures y.index < |chunks| && y.similarity == similarity(chunks[y.index].embedding)
  {
    var all := Scores(chunks, similarity);
    var j :| 0 <= j < |all| && all[j] == y;
  }

  /** A prefix of a permutation of `all` takes its elements from `all`, and
      everything in `all` is somewhere in the permutation. */
  lemma PrefixOfPermutation<T>(ranked: seq<T>, all: seq<T>, k: nat)
    requires multiset(ranked) == multiset(all) && k <= |ranked|
    ensures multiset(ranked[..k]) <= multiset(all)
    ensures forall y :: y in ranked[..k] ==> y in all
    ensures forall x :: x in all ==> x in ranked
  {
    assert ranked == ranked[..k] + ranked[k..];
    assert multiset(ranked[..k]) <= multiset(ranked);
    forall y | y in ranked[..k] ensures y in all {
      assert y in multiset(ranked[..k]);
      assert y in multiset(all);
    }
    forall x | x in all ensures x in ranked {
      assert x in multiset(all);
      assert x in multiset(ranked);
    }
  }

  /** In a list sorted by non-increasing key, nothing outside the first `k`
      elements has a larger key than any of them. */
  lemma PrefixRanksFirst<T>(ranked: seq<T>, k: nat, key: T -> int)
    requires SortedDesc(ranked, key) && k <= |ranked|
    ensures SortedDesc(ranked[..k], key)
    ensures forall x, i :: x in ranked && x !in ranked[..k] && 0 <= i < k ==> key(x) <= key(ranked[..k][i])
  {
    forall x, i | x in ranked && x !in ranked[..k] && 0 <= i < k
      ensures key(x) <= key(ranked[..k][i])
    {
      var p :| 0 <= p < |ranked| && ranked[p] == x;
    }
  }

  /** The texts of the selected chunks, best first. */
  function RelevantTexts<E>(chunks: seq<DocumentChunk<E>>, similarity: E -> int, topK: int): (r: seq<string>)
    ensures |r| == SliceEnd(|chunks|, topK)
    ensures 0 <= topK ==> |r| == (if topK < |chunks| then topK else |chunks|)
    ensures forall i :: 0 <= i < |r| ==>
      var s := Selected(chunks, similarity, topK)[i];
      s.index < |chunks| && r[i] == chunks[s.index].text
  {
    var sel := Selected(chunks, similarity, topK);
    seq(|sel|, i requires 0 <= i < |sel| => chunks[sel[i].index].text)
  }

  /** The `topK` of `findRelevantChunks` when the argument is omitted. */
  const DefaultTopK: int := 3

  /** How the promise `findRelevantChunks` returns ends. Its executor is an
      async function whose failures are dropped, so an exception before
      `resolve` leaves the promise pending for ever. */
  datatype Settlement<T> = Resolved(value: T) | NeverSettles

  /** The engine's answer to the query embedding request: the promise
      rejects, it resolves without `data[0]`, or it resolves with the query
      vector. */
  datatype QueryAnswer<Q> = Rejected | NoVector | Vector(q: Q)

  /** `findRelevantChunks(query, documentChunks, engine, topK)`. `answer` is
      what the engine returns for `QueryInput(query)`; `similarity(q)` scores
      a chunk embedding against the query vector `q`. A rejected request
      throws at the `await`; a missing vector throws only when the scoring
      callback runs, which it does once per chunk, so with no chunks the
      promise still resolves with `[]`. */
  function FindRelevantChunks<Q, E>(chunks: seq<DocumentChunk<E>>, answer: QueryAnswer<Q>,
                                    similarity: Q -> E -> int, topK: int): (r: Settlement<seq<string>>)
    ensures r.NeverSettles? <==> answer.Rejected? || (answer.NoVector? && |chunks| > 0)
    ensures answer.NoVector? && |chunks| == 0 ==> r == Resolved([])
    ensures answer.Vector? ==>
      var sim := similarity(answer.q);
      && r.Resolved?
      && |r.value| == SliceEnd(|chunks|, topK)
      && (0 <= topK ==> |r.value| == (if topK < |chunks| then topK else |chunks|))
      && forall i :: 0 <= i < |r.value| ==>
           var s := Selected(chunks, sim, topK)[i];
           s.index < |chunks| && r.value[i] == chunks[s.index].text
  {
    match answer
    case Rejected => NeverSettles
    case NoVector => if |chunks| == 0 then Resolved([]) else NeverSettles
    case Vector(q) => Resolved(RelevantTexts(chunks, similarity(q), topK))
  }

  /** With `topK` omitted, a search answered with a vector returns the three
      best chunks, or every chunk when there are fewer. */
  lemma DefaultTopKKeepsThree<Q, E>(chunks: seq<DocumentChunk<E>>, q: Q, similarity: Q -> E -> int)
    ensures var r := FindRelevantChunks(chunks, Vector(q), similarity, DefaultTopK);
      r.Resolved? && |r.value| == (if |chunks| < 3 then |chunks| else 3)
  {
  }
}

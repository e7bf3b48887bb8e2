/** Document ingestion (backend/src/services/DocumentProcessor.ts): a text is
    cut into sentences by `/[^.!?]+[.!?]+/g`, the sentences are packed greedily
    into chunks of at most CHUNK_SIZE characters, every chunk is embedded and
    stored as one vector, and the document is recorded with its chunk count. */
module DocumentProcessor {
  import opened Text
  import opened Types

  const ChunkSize: nat := 1000

  /** Declared beside ChunkSize but never read: adjacent chunks share no text. */
  const ChunkOverlap: nat := 200

  predicate IsTerminator(c: char) {
    c == '.' || c == '!' || c == '?'
  }

  predicate NotTerminator(c: char) {
    !IsTerminator(c)
  }

  function Max(a: nat, b: nat): nat {
    if a >= b then a else b
  }

  // ---------------------------------------------------------------------
  // Sentences

  /** End of the match of `[^.!?]+[.!?]+` starting at i, if there is one. The
      two classes are disjoint, so both greedy runs are maximal and nothing is
      given back. */
  function SentenceEnd(s: string, i: nat): (r: Option<nat>)
    requires i <= |s|
    ensures r.Some? ==> i < r.value <= |s|
  {
    if i < |s| && NotTerminator(s[i]) then
      var j := RunEnd(s, i, NotTerminator);
      if j < |s| then Some(RunEnd(s, j, IsTerminator)) else None
    else None
  }

  /** The matches of the global search from position i on. */
  function SentencesFrom(s: string, i: nat): seq<string>
    requires i <= |s|
    decreases |s| - i
  {
    if i == |s| then []
    else match SentenceEnd(s, i)
      case Some(e) => [s[i..e]] + SentencesFrom(s, e)
      case None => SentencesFrom(s, i + 1)
  }

  /** `text.match(/[^.!?]+[.!?]+/g) || [text]`: the matches, each a run of
      non-terminators closed by terminators, or the whole text when there is none. */
  function Sentences(text: string): (r: seq<string>)
    ensures r != []
    ensures r == [text] || forall k :: 0 <= k < |r| ==> IsSentence(r[k])
    ensures (forall k :: 0 <= k < |text| ==> NotTerminator(text[k])) ==> r == [text]
  {
    var found := SentencesFrom(text, 0);
    SentencesShape(text, 0);
    assert (forall k :: 0 <= k < |text| ==> NotTerminator(text[k])) ==> found == [] by {
      if forall k :: 0 <= k < |text| ==> NotTerminator(text[k]) {
        NoTerminatorNoSentence(text, 0);
      }
    }
    if found == [] then [text] else found
  }

  /** x is non-terminators before m and terminators from m on, both parts non-empty. */
  predicate SplitsAt(x: string, m: nat) {
    0 < m < |x| && forall k :: 0 <= k < |x| ==> (IsTerminator(x[k]) <==> k >= m)
  }

  /** A run of non-terminators followed by a run of terminators, both non-empty. */
  ghost predicate IsSentence(x: string) {
    exists m :: SplitsAt(x, m)
  }

  /** Every match has the sentence shape. */
  lemma {:induction false} SentencesShape(s: string, i: nat)
    requires i <= |s|
    ensures forall k :: 0 <= k < |SentencesFrom(s, i)| ==> IsSentence(SentencesFrom(s, i)[k])
    decreases |s| - i
  {
    if i < |s| {
      match SentenceEnd(s, i)
      case Some(e) =>
        SentencesShape(s, e);
        var j := RunEnd(s, i, NotTerminator);
        var x := s[i..e];
        assert forall k :: 0 <= k < |x| ==> (IsTerminator(x[k]) <==> k >= j - i) by {
          forall k | 0 <= k < |x| ensures IsTerminator(x[k]) <==> k >= j - i {
            assert x[k] == s[i + k];
          }
        }
        assert SplitsAt(x, j - i);
      case None =>
        SentencesShape(s, i + 1);
    }
  }

  /** Where the leading terminators end. */
  function LeadEnd(s: string): nat {
    RunEnd(s, 0, IsTerminator)
  }

  /** Where the trailing run of non-terminators starts. */
  function TailStart(s: string): nat {
    RunStart(s, |s|, NotTerminator)
  }

  /** The matches from i on, laid end to end, are the text from the end of the
      terminator run at i up to the trailing non-terminator run (or nothing). */
  predicate CoversFrom(s: string, i: nat)
    requires i <= |s|
  {
    var a := RunEnd(s, i, IsTerminator);
    Concat(SentencesFrom(s, i)) == s[a..Max(a, TailStart(s))]
  }

  lemma {:induction false} SentencesCoverFrom(s: string, i: nat)
    requires i <= |s|
    ensures var a := RunEnd(s, i, IsTerminator);
      Concat(SentencesFrom(s, i)) == s[a..Max(a, TailStart(s))]
    decreases |s| - i
  {
    if i == |s| {
      assert TailStart(s) <= |s|;
    } else if IsTerminator(s[i]) || RunEnd(s, i, NotTerminator) == |s| {
      SentencesCoverFrom(s, i + 1);
      CoverSkip(s, i);
    } else {
      var e := RunEnd(s, RunEnd(s, i, NotTerminator), IsTerminator);
      SentencesCoverFrom(s, e);
      CoverSentence(s, i);
    }
  }

  /** At a position where no match starts, the search moves on by one. */
  lemma CoverSkip(s: string, i: nat)
    requires i < |s| && CoversFrom(s, i + 1)
    requires IsTerminator(s[i]) || RunEnd(s, i, NotTerminator) == |s|
    ensures CoversFrom(s, i)
  {
    assert SentenceEnd(s, i).None?;
    assert SentencesFrom(s, i) == SentencesFrom(s, i + 1);
    if !IsTerminator(s[i]) {
      var b := TailStart(s);
      assert RunEnd(s, i, IsTerminator) == i;
      assert RunEnd(s, i + 1, IsTerminator) == i + 1;
      assert b <= i;
    }
  }

  /** A match at i is the text up to where the matches after it start. */
  lemma CoverSentence(s: string, i: nat)
    requires i < |s| && NotTerminator(s[i])
    requires RunEnd(s, i, NotTerminator) < |s|
    requires CoversFrom(s, RunEnd(s, RunEnd(s, i, NotTerminator), IsTerminator))
    ensures CoversFrom(s, i)
  {
    var e := RunEnd(s, RunEnd(s, i, NotTerminator), IsTerminator);
    var b := TailStart(s);
    SentenceAt(s, i);
    assert Max(e, b) == b && Max(i, b) == b;
    var rest := Concat(SentencesFrom(s, e));
    assert rest == s[e..b];
    SliceJoin(s, i, e, b);
    assert RunEnd(s, i, IsTerminator) == i;
    assert Concat(SentencesFrom(s, i)) == s[i..b];
  }

  /** The match at i ends after a terminator, no later than the trailing
      non-terminator run, and the next search starts right at its end. */
  lemma SentenceAt(s: string, i: nat)
    requires i < |s| && NotTerminator(s[i])
    requires RunEnd(s, i, NotTerminator) < |s|
    ensures var e := RunEnd(s, RunEnd(s, i, NotTerminator), IsTerminator);
      && i < e <= TailStart(s)
      && RunEnd(s, e, IsTerminator) == e
      && Concat(SentencesFrom(s, i)) == s[i..e] + Concat(SentencesFrom(s, e))
  {
    var j := RunEnd(s, i, NotTerminator);
    var e := RunEnd(s, j, IsTerminator);
    assert IsTerminator(s[j]);
    assert e > j;
    assert IsTerminator(s[e - 1]);
    assert SentenceEnd(s, i) == Some(e);
    assert SentencesFrom(s, i) == [s[i..e]] + SentencesFrom(s, e);
  }

  /** The sentences of a text are all of it except the terminators before the
      first non-terminator and the text after the last terminator. */
  lemma SentencesCover(text: string)
    requires SentencesFrom(text, 0) != []
    ensures Concat(Sentences(text)) == text[LeadEnd(text)..Max(LeadEnd(text), TailStart(text))]
    ensures forall k :: 0 <= k < LeadEnd(text) ==> IsTerminator(text[k])
    ensures forall k :: Max(LeadEnd(text), TailStart(text)) <= k < |text| ==> NotTerminator(text[k])
  {
    SentencesCoverFrom(text, 0);
  }

  /** Text without a terminator has no match at all. */
  lemma {:induction false} NoTerminatorNoSentence(s: string, i: nat)
    requires i <= |s| && forall k :: 0 <= k < |s| ==> NotTerminator(s[k])
    ensures SentencesFrom(s, i) == []
    decreases |s| - i
  {
    if i < |s| {
      NoTerminatorNoSentence(s, i + 1);
    }
  }

  predicate AllNonEmpty(xs: seq<string>) {
    forall k :: 0 <= k < |xs| ==> xs[k] != []
  }

  /** The sentences of a non-empty text are non-empty. */
  lemma SentencesNonEmpty(text: string)
    requires text != []
    ensures AllNonEmpty(Sentences(text))
  {
    SentencesShape(text, 0);
  }

  // ---------------------------------------------------------------------
  // Greedy packing

  /** The groups of sentences the packing loop closes, given the sentences
      still to come and the group being filled. A group is closed when the next
      sentence would push it past ChunkSize, and only if its text is non-empty. */
  function GroupsFrom(rest: seq<string>, cur: seq<string>): (r: seq<seq<string>>)
    ensures |r| <= |rest| + |Closed(cur)|
    decreases |rest|
  {
    if rest == [] then Closed(cur)
    else if |Concat(cur) + rest[0]| <= ChunkSize then
      GroupsFrom(rest[1..], cur + [rest[0]])
    else
      Closed(cur) + GroupsFrom(rest[1..], [rest[0]])
  }

  /** Closing the group being filled: it is kept only if its text is non-empty. */
  function Closed(cur: seq<string>): (r: seq<seq<string>>)
    ensures |r| <= 1
  {
    if Concat(cur) != [] then [cur] else []
  }

  /** The groups of the whole sentence list: at most one per sentence. */
  function Groups(sentences: seq<string>): (r: seq<seq<string>>)
    ensures |r| <= |sentences|
  {
    assert Closed([]) == [];
    GroupsFrom(sentences, [])
  }

  /** `splitIntoChunks`, as a specification: the trimmed text of each group. */
  function Chunks(text: string): (r: seq<string>)
    ensures |r| == |Groups(Sentences(text))|
    ensures forall k :: 0 <= k < |r| ==> r[k] == Trim(Concat(Groups(Sentences(text))[k]))
  {
    TrimmedTexts(Groups(Sentences(text)))
  }

  /** The trimmed text of each group, in order. */
  function TrimmedTexts(gs: seq<seq<string>>): (r: seq<string>)
    ensures |r| == |gs| && forall k :: 0 <= k < |gs| ==> r[k] == Trim(Concat(gs[k]))
  {
    if gs == [] then [] else TrimmedTexts(gs[..|gs| - 1]) + [Trim(Concat(gs[|gs| - 1]))]
  }

  lemma ConcatOfNonEmpty(xs: seq<string>)
    requires AllNonEmpty(xs)
    ensures Concat(xs) == [] <==> xs == []
  {
  }

  /** Packing loses, duplicates and reorders no sentence, and closes no empty group. */
  lemma {:induction false} GroupsPartition(rest: seq<string>, cur: seq<string>)
    requires AllNonEmpty(rest) && AllNonEmpty(cur)
    ensures Concat(GroupsFrom(rest, cur)) == cur + rest
    ensures forall k :: 0 <= k < |GroupsFrom(rest, cur)| ==> GroupsFrom(rest, cur)[k] != []
    decreases |rest|
  {
    if rest == [] {
      ClosedConcat(cur);
    } else if |Concat(cur) + rest[0]| <= ChunkSize {
      GroupsPartition(rest[1..], cur + [rest[0]]);
      assert cur + [rest[0]] + rest[1..] == cur + rest;
    } else {
      GroupsPartition(rest[1..], [rest[0]]);
      ClosedConcat(cur);
      PartitionJoin(Closed(cur), GroupsFrom(rest[1..], [rest[0]]), cur, [rest[0]] + rest[1..]);
      assert [rest[0]] + rest[1..] == rest;
    }
  }

  /** Closing a group of non-empty sentences keeps its sentences and adds no empty group. */
  lemma ClosedConcat(cur: seq<string>)
    requires AllNonEmpty(cur)
    ensures Concat(Closed(cur)) == cur
    ensures forall k :: 0 <= k < |Closed(cur)| ==> Closed(cur)[k] != []
  {
    ConcatOfNonEmpty(cur);
    if Concat(cur) != [] {
      assert Concat([cur]) == cur + Concat([cur][1..]);
    }
  }

  lemma PartitionJoin(head: seq<seq<string>>, tail: seq<seq<string>>, xs: seq<string>, ys: seq<string>)
    requires Concat(head) == xs && Concat(tail) == ys
    requires forall k :: 0 <= k < |head| ==> head[k] != []
    requires forall k :: 0 <= k < |tail| ==> tail[k] != []
    ensures Concat(head + tail) == xs + ys
    ensures forall k :: 0 <= k < |head + tail| ==> (head + tail)[k] != []
  {
    ConcatSplit(head, tail);
  }

  /** The first group closed begins with the group being filled. */
  lemma {:induction false} GroupsFirst(rest: seq<string>, cur: seq<string>)
    requires AllNonEmpty(rest) && AllNonEmpty(cur) && cur != []
    ensures GroupsFrom(rest, cur) != [] && GroupsFrom(rest, cur)[0] != []
    ensures GroupsFrom(rest, cur)[0][0] == cur[0]
    decreases |rest|
  {
    ConcatOfNonEmpty(cur);
    if rest != [] && |Concat(cur) + rest[0]| <= ChunkSize {
      GroupsFirst(rest[1..], cur + [rest[0]]);
    }
  }

  /** No group is over ChunkSize characters unless it is one sentence. */
  lemma {:induction false} GroupsBounded(rest: seq<string>, cur: seq<string>)
    requires |Concat(cur)| <= ChunkSize || |cur| <= 1
    ensures forall k :: 0 <= k < |GroupsFrom(rest, cur)| ==>
      |Concat(GroupsFrom(rest, cur)[k])| <= ChunkSize || |GroupsFrom(rest, cur)[k]| <= 1
    decreases |rest|
  {
    if rest != [] {
      if |Concat(cur) + rest[0]| <= ChunkSize {
        ConcatAppend(cur, rest[0]);
        GroupsBounded(rest[1..], cur + [rest[0]]);
      } else {
        GroupsBounded(rest[1..], [rest[0]]);
      }
    }
  }

  /** Group h could not have started with g still open: its first sentence
      would have pushed g past ChunkSize. */
  predicate ClosedWhenFull(g: seq<string>, h: seq<string>) {
    h != [] && |Concat(g) + h[0]| > ChunkSize
  }

  /** Greedy: a group is closed only when the next group's first sentence
      would not have fitted into it. */
  lemma {:induction false} GroupsGreedy(rest: seq<string>, cur: seq<string>)
    requires AllNonEmpty(rest) && AllNonEmpty(cur)
    ensures var gs := GroupsFrom(rest, cur);
      forall k :: 0 <= k < |gs| - 1 ==> ClosedWhenFull(gs[k], gs[k + 1])
    decreases |rest|
  {
    if rest != [] {
      assert AllNonEmpty(rest[1..]);
      if |Concat(cur) + rest[0]| <= ChunkSize {
        assert AllNonEmpty(cur + [rest[0]]);
        GroupsGreedy(rest[1..], cur + [rest[0]]);
        assert GroupsFrom(rest, cur) == GroupsFrom(rest[1..], cur + [rest[0]]);
      } else {
        var tail := GroupsFrom(rest[1..], [rest[0]]);
        GroupsGreedy(rest[1..], [rest[0]]);
        GroupsFirst(rest[1..], [rest[0]]);
        ConcatOfNonEmpty(cur);
      }
    }
  }

  /** What the chunker promises about a non-empty text: the untrimmed chunks
      are consecutive groups of its sentences, none empty, each at most
      ChunkSize characters unless it is a single sentence, and each closed only
      when the next sentence would not fit. */
  lemma ChunkingPromises(text: string)
    requires text != []
    ensures var gs := Groups(Sentences(text));
      && Concat(gs) == Sentences(text)
      && (forall k :: 0 <= k < |gs| ==> gs[k] != [])
      && (forall k :: 0 <= k < |gs| ==> |Concat(gs[k])| <= ChunkSize || |gs[k]| == 1)
      && (forall k :: 0 <= k < |gs| - 1 ==> ClosedWhenFull(gs[k], gs[k + 1]))
      && (forall k :: 0 <= k < |gs| ==> |Chunks(text)[k]| <= |Concat(gs[k])|)
  {
    var ss := Sentences(text);
    SentencesNonEmpty(text);
    GroupsPartition(ss, []);
    GroupsBounded(ss, []);
    GroupsGreedy(ss, []);
  }

  /** Empty text gives no chunk. */
  lemma ChunksOfEmpty()
    ensures Chunks([]) == []
  {
    var e: string := [];
    assert Sentences(e) == [e];
    assert [e][1..] == [] && [] + [e] == [e];
    assert Concat([e]) == e + Concat([e][1..]);
    assert Groups([e]) == GroupsFrom([], [e]) == [];
  }

  /** Text in which the pattern finds no sentence (for instance "..abc") is one
      chunk, its trimmed self, whatever its length; whitespace alone gives the
      one chunk "". */
  lemma ChunksWithoutSentence(text: string)
    requires text != [] && SentencesFrom(text, 0) == []
    ensures Chunks(text) == [Trim(text)]
  {
    assert Sentences(text) == [text];
    var none: seq<string> := [];
    assert [text][1..] == none && none + [text] == [text];
    assert Concat([text]) == text + Concat(none);
    assert Concat(none) == [] && text + [] == text;
    assert Concat([text]) == text;
    assert GroupsFrom(none, [text]) == [[text]];
    if |text| <= ChunkSize {
      assert Groups([text]) == GroupsFrom(none, [text]);
    } else {
      var noGroups: seq<seq<string>> := [];
      assert [text][0] == text && [text][1..] == none;
      assert GroupsFrom([text], []) == noGroups + GroupsFrom(none, [text]);
      assert Groups([text]) == [[text]];
    }
    assert Groups(Sentences(text)) == [[text]];
    assert |Chunks(text)| == 1;
    assert Chunks(text)[0] == Trim(Concat([text])) == Trim(text);
  }

  /** In particular, text without `.`, `!` or `?` is one chunk. */
  lemma ChunksWithoutTerminator(text: string)
    requires text != [] && forall k :: 0 <= k < |text| ==> NotTerminator(text[k])
    ensures Chunks(text) == [Trim(text)]
  {
    NoTerminatorNoSentence(text, 0);
    ChunksWithoutSentence(text);
  }

  predicate EndsInTerminator(x: string) {
    x != [] && IsTerminator(x[|x| - 1])
  }

  predicate AllEndInTerminator(xs: seq<string>) {
    forall k :: 0 <= k < |xs| ==> EndsInTerminator(xs[k])
  }

  lemma ConcatEndsInTerminator(xs: seq<string>)
    requires xs != [] && AllEndInTerminator(xs)
    ensures EndsInTerminator(Concat(xs))
  {
    var init, last := xs[..|xs| - 1], xs[|xs| - 1];
    assert xs == init + [last];
    ConcatAppend(init, last);
  }

  /** Groups of sentences ending in terminators have texts ending in one. */
  lemma {:induction false} GroupsEndInTerminator(rest: seq<string>, cur: seq<string>)
    requires AllEndInTerminator(rest) && AllEndInTerminator(cur)
    ensures forall k :: 0 <= k < |GroupsFrom(rest, cur)| ==> EndsInTerminator(Concat(GroupsFrom(rest, cur)[k]))
    decreases |rest|
  {
    if cur != [] {
      ConcatEndsInTerminator(cur);
    }
    if rest != [] {
      if |Concat(cur) + rest[0]| <= ChunkSize {
        GroupsEndInTerminator(rest[1..], cur + [rest[0]]);
      } else {
        GroupsEndInTerminator(rest[1..], [rest[0]]);
      }
    }
  }

  /** When the text has at least one sentence, no chunk is blank. */
  lemma ChunksNotBlank(text: string)
    requires SentencesFrom(text, 0) != []
    ensures forall k :: 0 <= k < |Chunks(text)| ==> Chunks(text)[k] != []
  {
    var ss := Sentences(text);
    var gs := Groups(ss);
    SentencesShape(text, 0);
    assert AllEndInTerminator(ss) by {
      forall k | 0 <= k < |ss| ensures EndsInTerminator(ss[k]) {
        var m :| SplitsAt(ss[k], m);
      }
    }
    GroupsEndInTerminator(ss, []);
    forall k | 0 <= k < |gs| ensures Trim(Concat(gs[k])) != [] {
      var c := Concat(gs[k]);
      assert !IsJsSpace(c[|c| - 1]);
    }
  }

  /** `splitIntoChunks`: one pass over the sentences, growing the current chunk
      while it fits and pushing its trimmed text when it does not. */
  method SplitIntoChunks(text: string) returns (chunks: seq<string>)
    ensures chunks == Chunks(text)
  {
    chunks := [];
    var sentences := Sentences(text);
    var currentChunk := "";
    ghost var cur: seq<string> := [];
    ghost var done: seq<seq<string>> := [];
    var i := 0;
    while i < |sentences|
      invariant 0 <= i <= |sentences|
      invariant currentChunk == Concat(cur)
      invariant done + GroupsFrom(sentences[i..], cur) == Groups(sentences)
      invariant chunks == TrimmedTexts(done)
    {
      var sentence := sentences[i];
      PackStep(sentences[i..], cur, done, Groups(sentences));
      assert sentences[i..][1..] == sentences[i + 1..];
      if |currentChunk + sentence| <= ChunkSize {
        currentChunk := currentChunk + sentence;
        cur := cur + [sentence];
      } else {
        TrimmedTextsClose(done, cur);
        if currentChunk != "" {
          chunks := chunks + [Trim(currentChunk)];
        }
        done := done + Closed(cur);
        currentChunk := sentence;
        cur := [sentence];
      }
      i := i + 1;
    }
    assert sentences[i..] == [];
    TrimmedTextsClose(done, cur);
    if currentChunk != "" {
      chunks := chunks + [Trim(currentChunk)];
    }
    done := done + Closed(cur);
  }

  /** One step of the packing loop keeps the groups still to be closed in
      step with the specification: the next sentence joins the open group if
      it fits, and otherwise closes it and opens a new one. */
  lemma PackStep(rest: seq<string>, cur: seq<string>, done: seq<seq<string>>, target: seq<seq<string>>)
    requires rest != [] && done + GroupsFrom(rest, cur) == target
    ensures Concat(cur + [rest[0]]) == Concat(cur) + rest[0] && Concat([rest[0]]) == rest[0]
    ensures |Concat(cur) + rest[0]| <= ChunkSize ==>
      done + GroupsFrom(rest[1..], cur + [rest[0]]) == target
    ensures |Concat(cur) + rest[0]| > ChunkSize ==>
      (done + Closed(cur)) + GroupsFrom(rest[1..], [rest[0]]) == target
  {
    ConcatAppend(cur, rest[0]);
    ConcatOne(rest[0]);
    if |Concat(cur) + rest[0]| > ChunkSize {
      PackCloses(rest, cur, done);
    }
  }

  lemma PackCloses(rest: seq<string>, cur: seq<string>, done: seq<seq<string>>)
    requires rest != [] && |Concat(cur) + rest[0]| > ChunkSize
    ensures done + GroupsFrom(rest, cur) == (done + Closed(cur)) + GroupsFrom(rest[1..], [rest[0]])
  {
    var next := GroupsFrom(rest[1..], [rest[0]]);
    assert GroupsFrom(rest, cur) == Closed(cur) + next;
    assert done + (Closed(cur) + next) == (done + Closed(cur)) + next;
  }

  /** Closing a group adds its trimmed text exactly when its text is non-empty. */
  lemma TrimmedTextsClose(gs: seq<seq<string>>, g: seq<string>)
    ensures TrimmedTexts(gs + Closed(g)) ==
      if Concat(g) != [] then TrimmedTexts(gs) + [Trim(Concat(g))] else TrimmedTexts(gs)
  {
    if Concat(g) != [] {
      assert (gs + [g])[..|gs|] == gs;
    } else {
      assert gs + Closed(g) == gs;
    }
  }

  // ---------------------------------------------------------------------
  // Ingestion

  /** The metadata stored with each vector. */
  datatype VectorMetadata = VectorMetadata(
    title: string,
    source: string,
    contentType: string,
    text: string,
    chunkIndex: nat,
    totalChunks: nat)

  datatype Vector = Vector(id: string, values: Embedding, metadata: VectorMetadata)

  /** The `documents` row: its columns and the `originalLength` metadata. */
  datatype DocumentRecord = DocumentRecord(
    title: string,
    source: string,
    contentType: string,
    chunkCount: nat,
    originalLength: nat)

  datatype Document = Document(title: string, content: string, source: string)

  /** What an ingestion stored: the vectors upserted, the row inserted and the
      id the database gave it. */
  datatype Ingested = Ingested(vectors: seq<Vector>, record: DocumentRecord, id: string)

  /** The services ingestion calls: embedding, the uuid of the i-th vector,
      whether the vector upsert succeeds, and the database insert. */
  datatype IngestEnv = IngestEnv(
    embed: string -> Outcome<Embedding>,
    uuid: nat -> string,
    upsert: seq<Vector> -> bool,
    insert: DocumentRecord -> Outcome<string>)

  predicate AllEmbedded(env: IngestEnv, chunks: seq<string>) {
    forall k :: 0 <= k < |chunks| ==> env.embed(chunks[k]).Ok?
  }

  /** The vector of chunk i. */
  function VectorFor(env: IngestEnv, title: string, source: string, contentType: string,
                     chunks: seq<string>, i: nat): Vector
    requires i < |chunks| && env.embed(chunks[i]).Ok?
  {
    Vector(env.uuid(i), env.embed(chunks[i]).value,
      VectorMetadata(title, source, contentType, chunks[i], i, |chunks|))
  }

  /** One vector per chunk, in chunk order. */
  function Vectors(env: IngestEnv, title: string, source: string, contentType: string,
                   chunks: seq<string>): (r: seq<Vector>)
    requires AllEmbedded(env, chunks)
    ensures |r| == |chunks|
    ensures forall i :: 0 <= i < |r| ==>
      r[i].metadata.chunkIndex == i && r[i].metadata.totalChunks == |chunks|
      && r[i].metadata.text == chunks[i] && r[i].values == env.embed(chunks[i]).value
  {
    seq(|chunks|, i requires 0 <= i < |chunks| => VectorFor(env, title, source, contentType, chunks, i))
  }

  /** `ingestDocument`, as a specification: it succeeds exactly when every
      chunk embeds, the upsert succeeds and the insert returns an id; it then
      stores one vector per chunk and records the chunk count and the length. */
  function Ingest(env: IngestEnv, title: string, content: string, source: string,
                  contentType: string): (r: Outcome<Ingested>)
    ensures r.Ok? ==> AllEmbedded(env, Chunks(content))
    ensures r.Ok? ==>
      && r.value.vectors == Vectors(env, title, source, contentType, Chunks(content))
      && r.value.record == DocumentRecord(title, source, contentType, |Chunks(content)|, |content|)
    ensures r.Ok? <==>
      && AllEmbedded(env, Chunks(content))
      && env.upsert(Vectors(env, title, source, contentType, Chunks(content)))
      && env.insert(DocumentRecord(title, source, contentType, |Chunks(content)|, |content|)).Ok?
  {
    var chunks := Chunks(content);
    if !AllEmbedded(env, chunks) then Fail
    else
      var vectors := Vectors(env, title, source, contentType, chunks);
      if !env.upsert(vectors) then Fail
      else
        var record := DocumentRecord(title, source, contentType, |chunks|, |content|);
        match env.insert(record)
        case Fail => Fail
        case Ok(id) => Ok(Ingested(vectors, record, id))
  }

  /** `ingestDocument`: chunk, embed chunk by chunk, upsert, insert. */
  method IngestDocument(env: IngestEnv, title: string, content: string, source: string,
                        contentType: string) returns (r: Outcome<Ingested>)
    ensures r == Ingest(env, title, content, source, contentType)
  {
    var chunks := SplitIntoChunks(content);
    var embedded := EmbedChunks(env, title, source, contentType, chunks);
    if embedded.None? {
      return Fail;
    }
    var vectors := embedded.value;
    if !env.upsert(vectors) {
      return Fail;
    }
    var record := DocumentRecord(title, source, contentType, |chunks|, |content|);
    var inserted := env.insert(record);
    if inserted.Fail? {
      return Fail;
    }
    r := Ok(Ingested(vectors, record, inserted.value));
  }

  /** The embedding loop of `ingestDocument`: one vector per chunk, stopping at
      the first chunk whose embedding fails. */
  method EmbedChunks(env: IngestEnv, title: string, source: string, contentType: string,
                     chunks: seq<string>) returns (r: Option<seq<Vector>>)
    ensures r.Some? <==> AllEmbedded(env, chunks)
    ensures r.Some? ==> r.value == Vectors(env, title, source, contentType, chunks)
  {
    var vectors: seq<Vector> := [];
    var i := 0;
    while i < |chunks|
      invariant 0 <= i <= |chunks|
      invariant |vectors| == i
      invariant forall k :: 0 <= k < i ==> env.embed(chunks[k]).Ok?
      invariant forall k :: 0 <= k < i ==> vectors[k] == VectorFor(env, title, source, contentType, chunks, k)
    {
      var chunk := chunks[i];
      var embedding := env.embed(chunk);
      if embedding.Fail? {
        assert !AllEmbedded(env, chunks);
        return None;
      }
      vectors := vectors + [Vector(env.uuid(i), embedding.value,
        VectorMetadata(title, source, contentType, chunk, i, |chunks|))];
      i := i + 1;
    }
    assert vectors == Vectors(env, title, source, contentType, chunks);
    r := Some(vectors);
  }

  /** What `ingestDocument` reports for one document of a batch: the id of
      its new record, or a failure. */
  function IdOutcome(env: IngestEnv, doc: Document): Outcome<string> {
    match Ingest(env, doc.title, doc.content, doc.source, "text")
    case Ok(x) => Ok(x.id)
    case Fail => Fail
  }

  /** The outcome of each document of a batch, in input order; envs(k) is
      how the services behave while the k-th document is ingested. */
  function Outcomes(envs: nat -> IngestEnv, docs: seq<Document>): (r: seq<Outcome<string>>)
    ensures |r| == |docs| && forall k :: 0 <= k < |docs| ==> r[k] == IdOutcome(envs(k), docs[k])
  {
    seq(|docs|, k requires 0 <= k < |docs| => IdOutcome(envs(k), docs[k]))
  }

  /** The ids of the successful outcomes, in order; failures are skipped. */
  function KeptIds(outcomes: seq<Outcome<string>>): (r: seq<string>)
    ensures |r| <= |outcomes|
  {
    if outcomes == [] then []
    else
      var last := outcomes[|outcomes| - 1];
      KeptIds(outcomes[..|outcomes| - 1]) + (if last.Ok? then [last.value] else [])
  }

  /** `ingestMultipleDocuments`, as a specification: the ids of the documents
      that were ingested, in input order. */
  function IngestedIds(envs: nat -> IngestEnv, docs: seq<Document>): seq<string> {
    KeptIds(Outcomes(envs, docs))
  }

  /** The ids of a batch are those of its two halves, one after the other. */
  lemma {:induction false} KeptIdsAppend(o1: seq<Outcome<string>>, o2: seq<Outcome<string>>)
    ensures KeptIds(o1 + o2) == KeptIds(o1) + KeptIds(o2)
    decreases |o2|
  {
    if o2 == [] {
      assert o1 + o2 == o1;
    } else {
      var init := o2[..|o2| - 1];
      assert (o1 + o2)[..|o1 + o2| - 1] == o1 + init;
      KeptIdsAppend(o1, init);
    }
  }

  /** A failing document adds nothing and does not stop the documents after it. */
  lemma FailureSkipped(o1: seq<Outcome<string>>, o2: seq<Outcome<string>>)
    ensures KeptIds(o1 + [Fail] + o2) == KeptIds(o1) + KeptIds(o2)
  {
    var o := o1 + [Fail];
    KeptIdsAppend(o, o2);
    assert o[..|o| - 1] == o1;
    assert KeptIds(o) == KeptIds(o1);
  }

  /** Every kept id is the id of a successful outcome, and every successful
      outcome's id is kept. */
  lemma {:induction false} KeptIdsAreSuccesses(outcomes: seq<Outcome<string>>)
    ensures forall id :: id in KeptIds(outcomes) <==> Ok(id) in outcomes
  {
    if outcomes != [] {
      var init := outcomes[..|outcomes| - 1];
      KeptIdsAreSuccesses(init);
      assert outcomes == init + [outcomes[|outcomes| - 1]];
    }
  }

  /** One id per success: as many ids as documents exactly when none failed. */
  lemma {:induction false} KeptIdsCount(outcomes: seq<Outcome<string>>)
    ensures |KeptIds(outcomes)| == |outcomes| <==> forall k :: 0 <= k < |outcomes| ==> outcomes[k].Ok?
  {
    if outcomes != [] {
      var init := outcomes[..|outcomes| - 1];
      KeptIdsCount(init);
      assert forall k :: 0 <= k < |init| ==> init[k] == outcomes[k];
    }
  }

  /** A document whose ingestion fails adds no id, and the documents before
      and after it keep theirs. */
  lemma FailingDocumentSkipped(envs: nat -> IngestEnv, docs: seq<Document>, j: nat)
    requires j < |docs|
    requires Ingest(envs(j), docs[j].title, docs[j].content, docs[j].source, "text").Fail?
    ensures IngestedIds(envs, docs) ==
      KeptIds(Outcomes(envs, docs)[..j]) + KeptIds(Outcomes(envs, docs)[j + 1..])
  {
    var o := Outcomes(envs, docs);
    IdOutcomeFail(envs(j), docs[j]);
    Around(o, j);
    FailureSkipped(o[..j], o[j + 1..]);
  }

  lemma IdOutcomeFail(env: IngestEnv, doc: Document)
    requires Ingest(env, doc.title, doc.content, doc.source, "text").Fail?
    ensures IdOutcome(env, doc) == Fail
  {
  }

  lemma Around<T>(o: seq<T>, j: nat)
    requires j < |o|
    ensures o == o[..j] + [o[j]] + o[j + 1..]
  {
  }

  /** The documents before position j do not depend on those after it. */
  lemma OutcomesPrefix(envs: nat -> IngestEnv, docs: seq<Document>, j: nat)
    requires j <= |docs|
    ensures Outcomes(envs, docs)[..j] == Outcomes(envs, docs[..j])
  {
    assert forall k :: 0 <= k < j ==> docs[..j][k] == docs[k];
  }

  /** What one document's ingestion reports, in terms of its outcome. */
  lemma IdOutcomeOf(env: IngestEnv, doc: Document, r: Outcome<Ingested>)
    requires r == Ingest(env, doc.title, doc.content, doc.source, "text")
    ensures IdOutcome(env, doc) == if r.Ok? then Ok(r.value.id) else Fail
  {
  }

  /** Extending the outcomes considered by one extends the ids by its id, if any. */
  lemma KeptIdsSnoc(outcomes: seq<Outcome<string>>, i: nat)
    requires i < |outcomes|
    ensures KeptIds(outcomes[..i + 1]) ==
      KeptIds(outcomes[..i]) + (if outcomes[i].Ok? then [outcomes[i].value] else [])
  {
    assert outcomes[..i + 1][..i] == outcomes[..i];
  }

  /** `ingestMultipleDocuments`: ingest each document in turn, keeping the ids
      of those that succeed. */
  method IngestMultipleDocuments(envs: nat -> IngestEnv, docs: seq<Document>) returns (ids: seq<string>)
    ensures ids == IngestedIds(envs, docs)
  {
    ghost var outcomes := Outcomes(envs, docs);
    ids := [];
    var i := 0;
    while i < |docs|
      invariant 0 <= i <= |docs|
      invariant ids == KeptIds(outcomes[..i])
    {
      var doc := docs[i];
      var r := IngestDocument(envs(i), doc.title, doc.content, doc.source, "text");
      IdOutcomeOf(envs(i), doc, r);
      KeptIdsSnoc(outcomes, i);
      if r.Ok? {
        ids := ids + [r.value.id];
      }
      i := i + 1;
    }
    assert outcomes[..i] == outcomes;
  }
}

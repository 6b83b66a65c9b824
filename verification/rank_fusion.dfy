/** Reciprocal rank fusion of several weighted result lists. */
module RankFusion {
  import opened Basics
  import opened Wrappers

  /** A retrieved document; `fields` holds the textual form of what it carries. */
  datatype Doc = Doc(fields: map<string, string>, rrfScore: Option<real>)

  datatype Source = Source(docs: seq<Doc>, weight: real)

  datatype Ranked = Ranked(key: string, doc: Doc, score: real)

  // ------------------------------------------------------ the document key

  /** `strip`, `fold` (split, join and casefold) and `digest` are library functions. */
  datatype Library = Library(strip: string -> string, fold: string -> string, digest: string -> string)

  function Field(doc: Doc, name: string): string {
    if name in doc.fields then doc.fields[name] else ""
  }

  function Provenance(doc: Doc): string {
    Field(doc, "document_id") + ":" + Field(doc, "document_version") + ":" + Field(doc, "chunk_index")
  }

  predicate HasProvenance(doc: Doc) {
    exists c | c in Provenance(doc) :: c != ':'
  }

  function ContentDigest(doc: Doc, lib: Library): string {
    lib.digest(lib.fold(Field(doc, "content")))
  }

  function DocumentKey(doc: Doc, lib: Library): string {
    var chunkId := lib.strip(Field(doc, "chunk_id"));
    var hash := lib.strip(Field(doc, "content_hash"));
    if chunkId != "" then "chunk:" + chunkId
    else if hash != "" then "hash:" + hash
    else if HasProvenance(doc) then "provenance:" + Provenance(doc)
    else "content:" + ContentDigest(doc, lib)
  }

  lemma ColonCuts(a: string, b: string, s: string, t: string)
    requires ':' !in a && ':' !in b
    ensures a + ":" + s == b + ":" + t <==> a == b && s == t
  {
    if a + ":" + s == b + ":" + t {
      var whole := a + ":" + s;
      assert whole[|a|] == ':' && whole[|b|] == ':';
      assert forall i | 0 <= i < |a| :: whole[i] == a[i] && a[i] in a;
      assert forall i | 0 <= i < |b| :: whole[i] == b[i] && b[i] in b;
      assert |a| == |b|;
      assert whole[..|a|] == a && whole[..|b|] == b && whole[|a| + 1..] == s && whole[|b| + 1..] == t;
    }
  }

  /** Document, version and chunk number are told apart as long as document and version hold no colon. */
  lemma ProvenanceIff(a: Doc, b: Doc)
    requires ':' !in Field(a, "document_id") && ':' !in Field(b, "document_id")
    requires ':' !in Field(a, "document_version") && ':' !in Field(b, "document_version")
    ensures Provenance(a) == Provenance(b)
       <==> && Field(a, "document_id") == Field(b, "document_id")
            && Field(a, "document_version") == Field(b, "document_version")
            && Field(a, "chunk_index") == Field(b, "chunk_index")
  {
    var da, va, ca := Field(a, "document_id"), Field(a, "document_version"), Field(a, "chunk_index");
    var db, vb, cb := Field(b, "document_id"), Field(b, "document_version"), Field(b, "chunk_index");
    ProvenanceParts(a, da, va, ca);
    ProvenanceParts(b, db, vb, cb);
    ColonCuts(da, db, va + ":" + ca, vb + ":" + cb);
    ColonCuts(va, vb, ca, cb);
  }

  lemma ProvenanceParts(doc: Doc, d: string, v: string, c: string)
    requires d == Field(doc, "document_id") && v == Field(doc, "document_version") && c == Field(doc, "chunk_index")
    ensures Provenance(doc) == d + ":" + (v + ":" + c)
  {
    assert d + ":" + v + ":" + c == d + ":" + (v + ":" + c);
  }

  /** The first kind of evidence that both documents have, or that one of them has, is the same in both. */
  ghost predicate SameEvidence(a: Doc, b: Doc, lib: Library) {
    && lib.strip(Field(a, "chunk_id")) == lib.strip(Field(b, "chunk_id"))
    && (lib.strip(Field(a, "chunk_id")) == "" ==>
          && lib.strip(Field(a, "content_hash")) == lib.strip(Field(b, "content_hash"))
          && (lib.strip(Field(a, "content_hash")) == "" ==>
                && (HasProvenance(a) <==> HasProvenance(b))
                && (HasProvenance(a) ==> Provenance(a) == Provenance(b))
                && (!HasProvenance(a) ==> ContentDigest(a, lib) == ContentDigest(b, lib))))
  }

  /** Which of the four kinds a key is of shows in its first two characters. */
  lemma KeyPrefix(doc: Doc, lib: Library)
    ensures var key := DocumentKey(doc, lib);
            && |key| > 4
            && ((key[0], key[1]) == ('c', 'h') <==> lib.strip(Field(doc, "chunk_id")) != "")
            && (key[0] == 'h' <==> lib.strip(Field(doc, "chunk_id")) == "" && lib.strip(Field(doc, "content_hash")) != "")
            && (key[0] == 'p' ==> HasProvenance(doc)) && ((key[0], key[1]) == ('c', 'o') ==> !HasProvenance(doc))
            && key[0] in {'c', 'h', 'p'} && (key[0] == 'c' ==> key[1] in {'h', 'o'})
  {
  }

  /** Documents share a key exactly when the strongest evidence that either carries (chunk identifier, content
      hash, provenance, text) is the same in both: a document with one kind is never merged with one without. */
  lemma KeysOfOneKind(a: Doc, b: Doc, lib: Library)
    ensures DocumentKey(a, lib) == DocumentKey(b, lib) <==> SameEvidence(a, b, lib)
  {
    var x, y := DocumentKey(a, lib), DocumentKey(b, lib);
    KeyPrefix(a, lib);
    KeyPrefix(b, lib);
    if x == y {
      if (x[0], x[1]) == ('c', 'h') {
        assert x[6..] == lib.strip(Field(a, "chunk_id")) && y[6..] == lib.strip(Field(b, "chunk_id"));
      } else if x[0] == 'h' {
        assert x[5..] == lib.strip(Field(a, "content_hash")) && y[5..] == lib.strip(Field(b, "content_hash"));
      } else if x[0] == 'p' {
        assert x[11..] == Provenance(a) && y[11..] == Provenance(b);
      } else {
        assert x[8..] == ContentDigest(a, lib) && y[8..] == ContentDigest(b, lib);
      }
    }
  }

  // ------------------------------------------------------------- the scores

  /** What the document at a 1-based rank adds. */
  function Share(weight: real, k: nat, rank: nat): real
    requires rank >= 1
  {
    weight / (k + rank) as real
  }

  /** A share is the weight divided among `k` + rank. */
  lemma ShareTimesRank(weight: real, k: nat, rank: nat)
    requires rank >= 1
    ensures Share(weight, k, rank) * (k + rank) as real == weight
  {
  }

  /** The contribution of one list to a key: the sum over all its occurrences. */
  function ListScore(docs: seq<Doc>, weight: real, k: nat, keyOf: Doc -> string, key: string): real {
    if docs == [] then 0.0
    else
      var n := |docs| - 1;
      ListScore(docs[..n], weight, k, keyOf, key) + (if keyOf(docs[n]) == key then Share(weight, k, n + 1) else 0.0)
  }

  function Score(sources: seq<Source>, k: nat, keyOf: Doc -> string, key: string): real {
    if sources == [] then 0.0
    else
      var n := |sources| - 1;
      Score(sources[..n], k, keyOf, key) + ListScore(sources[n].docs, sources[n].weight, k, keyOf, key)
  }

  /** The sum of the shares of all positions of a list, and of all lists. */
  function ListTotal(docs: seq<Doc>, weight: real, k: nat): real {
    if docs == [] then 0.0 else ListTotal(docs[..|docs| - 1], weight, k) + Share(weight, k, |docs|)
  }

  function Total(sources: seq<Source>, k: nat): real {
    if sources == [] then 0.0
    else
      var n := |sources| - 1;
      Total(sources[..n], k) + ListTotal(sources[n].docs, sources[n].weight, k)
  }

  /** All documents in the order the loops meet them. */
  function AllDocs(sources: seq<Source>): seq<Doc> {
    if sources == [] then [] else AllDocs(sources[..|sources| - 1]) + sources[|sources| - 1].docs
  }

  /** The keys in the order of their first appearance. */
  function FirstSeen(docs: seq<Doc>, keyOf: Doc -> string): seq<string> {
    if docs == [] then [] else PushNew(FirstSeen(docs[..|docs| - 1], keyOf), keyOf(docs[|docs| - 1]))
  }

  ghost predicate Occurs(docs: seq<Doc>, keyOf: Doc -> string, key: string) {
    exists i | 0 <= i < |docs| :: keyOf(docs[i]) == key
  }

  /** `setdefault`: the first document with a key. */
  function FirstWith(docs: seq<Doc>, keyOf: Doc -> string, key: string): Option<Doc> {
    if docs == [] then None
    else
      var front, last := FirstWith(docs[..|docs| - 1], keyOf, key), docs[|docs| - 1];
      if front.None? && keyOf(last) == key then Some(last) else front
  }

  /** `doc` is the earliest document with its key. */
  ghost predicate IsFirst(docs: seq<Doc>, keyOf: Doc -> string, key: string, doc: Doc) {
    exists i | 0 <= i < |docs| :: docs[i] == doc && keyOf(doc) == key && forall j | 0 <= j < i :: keyOf(docs[j]) != key
  }

  lemma {:induction false} FirstSeenIsDistinct(docs: seq<Doc>, keyOf: Doc -> string)
    ensures Distinct(FirstSeen(docs, keyOf))
    ensures forall key :: key in FirstSeen(docs, keyOf) <==> Occurs(docs, keyOf, key)
  {
    if docs != [] {
      var n := |docs| - 1;
      FirstSeenIsDistinct(docs[..n], keyOf);
      forall key
        ensures Occurs(docs, keyOf, key) <==> Occurs(docs[..n], keyOf, key) || keyOf(docs[n]) == key
      {
        if i :| 0 <= i < n && keyOf(docs[..n][i]) == key {
          assert keyOf(docs[i]) == key;
        }
        if i :| 0 <= i < |docs| && keyOf(docs[i]) == key {
          assert i < n ==> keyOf(docs[..n][i]) == key;
        }
      }
    }
  }

  lemma {:induction false} FirstWithIsFirst(docs: seq<Doc>, keyOf: Doc -> string, key: string)
    ensures match FirstWith(docs, keyOf, key)
            case Some(doc) => IsFirst(docs, keyOf, key, doc)
            case None => !Occurs(docs, keyOf, key)
  {
    if docs != [] {
      var n := |docs| - 1;
      FirstWithIsFirst(docs[..n], keyOf, key);
      var front := FirstWith(docs[..n], keyOf, key);
      if front.Some? {
        var i :| 0 <= i < n && docs[..n][i] == front.value && keyOf(front.value) == key
                 && forall j | 0 <= j < i :: keyOf(docs[..n][j]) != key;
        assert docs[i] == front.value && forall j | 0 <= j < i :: keyOf(docs[j]) == keyOf(docs[..n][j]);
      } else {
        assert forall i | 0 <= i < n :: keyOf(docs[i]) == keyOf(docs[..n][i]);
      }
    }
  }

  /** Keys stay in the order in which they were first met. */
  lemma {:induction false} FirstSeenGrows(docs: seq<Doc>, keyOf: Doc -> string, n: nat)
    requires n <= |docs|
    ensures FirstSeen(docs[..n], keyOf) <= FirstSeen(docs, keyOf)
    decreases |docs|
  {
    if n < |docs| {
      var front := docs[..|docs| - 1];
      FirstSeenGrows(front, keyOf, n);
      assert front[..n] == docs[..n];
    } else {
      assert docs[..n] == docs;
    }
  }

  function SumOver(keys: seq<string>, scores: map<string, real>): real
    requires forall x | x in keys :: x in scores
  {
    if keys == [] then 0.0 else SumOver(keys[..|keys| - 1], scores) + scores[keys[|keys| - 1]]
  }

  lemma {:induction false} SumIgnoresOthers(keys: seq<string>, scores: map<string, real>, x: string, value: real)
    requires x !in keys && forall y | y in keys :: y in scores
    ensures SumOver(keys, scores[x := value]) == SumOver(keys, scores)
  {
    if keys != [] {
      SumIgnoresOthers(keys[..|keys| - 1], scores, x, value);
    }
  }

  lemma {:induction false} SumRaised(keys: seq<string>, scores: map<string, real>, x: string, share: real)
    requires x in keys && Distinct(keys) && forall y | y in keys :: y in scores
    ensures SumOver(keys, scores[x := scores[x] + share]) == SumOver(keys, scores) + share
  {
    var n := |keys| - 1;
    if keys[n] == x {
      SumIgnoresOthers(keys[..n], scores, x, scores[x] + share);
    } else {
      SumRaised(keys[..n], scores, x, share);
    }
  }

  // ---------------------------------------------------------- stable sorting

  function Insert(sorted: seq<Ranked>, x: Ranked): seq<Ranked> {
    if sorted == [] then [x]
    else if sorted[|sorted| - 1].score >= x.score then sorted + [x]
    else Insert(sorted[..|sorted| - 1], x) + [sorted[|sorted| - 1]]
  }

  /** `sorted(..., reverse=True)`: descending, equal scores in their original order. */
  function SortDescending(xs: seq<Ranked>): seq<Ranked> {
    if xs == [] then [] else Insert(SortDescending(xs[..|xs| - 1]), xs[|xs| - 1])
  }

  function WithScore(xs: seq<Ranked>, score: real): seq<Ranked> {
    if xs == [] then []
    else WithScore(xs[..|xs| - 1], score) + (if xs[|xs| - 1].score == score then [xs[|xs| - 1]] else [])
  }

  ghost predicate Descending(xs: seq<Ranked>) {
    forall i, j | 0 <= i < j < |xs| :: xs[i].score >= xs[j].score
  }

  lemma WithScoreSnoc(xs: seq<Ranked>, x: Ranked, score: real)
    ensures WithScore(xs + [x], score) == WithScore(xs, score) + (if x.score == score then [x] else [])
  {
    assert (xs + [x])[..|xs|] == xs;
  }

  lemma {:induction false} InsertPermutes(sorted: seq<Ranked>, x: Ranked)
    ensures multiset(Insert(sorted, x)) == multiset(sorted) + multiset{x}
  {
    if sorted != [] && sorted[|sorted| - 1].score < x.score {
      var front, last := sorted[..|sorted| - 1], sorted[|sorted| - 1];
      InsertPermutes(front, x);
      assert sorted == front + [last];
    }
  }

  lemma {:induction false} InsertDescends(sorted: seq<Ranked>, x: Ranked)
    requires Descending(sorted)
    ensures Descending(Insert(sorted, x))
  {
    if sorted != [] && sorted[|sorted| - 1].score < x.score {
      var front, last := sorted[..|sorted| - 1], sorted[|sorted| - 1];
      InsertDescends(front, x);
      InsertPermutes(front, x);
      forall i | 0 <= i < |Insert(front, x)|
        ensures Insert(front, x)[i].score >= last.score
      {
        var y := Insert(front, x)[i];
        assert y in multiset(front) + multiset{x};
        if y != x {
          assert y in front;
        }
      }
    }
  }

  lemma {:induction false} InsertKeepsClasses(sorted: seq<Ranked>, x: Ranked, score: real)
    requires Descending(sorted)
    ensures WithScore(Insert(sorted, x), score) == WithScore(sorted, score) + (if x.score == score then [x] else [])
  {
    WithScoreSnoc(sorted, x, score);
    if sorted != [] && sorted[|sorted| - 1].score < x.score {
      var front, last := sorted[..|sorted| - 1], sorted[|sorted| - 1];
      InsertKeepsClasses(front, x, score);
      WithScoreSnoc(Insert(front, x), last, score);
    }
  }

  lemma SnocMultiset(xs: seq<Ranked>)
    requires xs != []
    ensures multiset(xs) == multiset(xs[..|xs| - 1]) + multiset{xs[|xs| - 1]}
  {
    assert xs == xs[..|xs| - 1] + [xs[|xs| - 1]];
  }

  lemma {:induction false} SortPermutes(xs: seq<Ranked>)
    ensures multiset(SortDescending(xs)) == multiset(xs)
  {
    if xs != [] {
      var front, last := xs[..|xs| - 1], xs[|xs| - 1];
      SortPermutes(front);
      InsertPermutes(SortDescending(front), last);
      SnocMultiset(xs);
    }
  }

  lemma {:induction false} SortDescends(xs: seq<Ranked>)
    ensures Descending(SortDescending(xs))
  {
    if xs != [] {
      SortDescends(xs[..|xs| - 1]);
      InsertDescends(SortDescending(xs[..|xs| - 1]), xs[|xs| - 1]);
    }
  }

  lemma {:induction false} SortKeepsClasses(xs: seq<Ranked>, score: real)
    ensures WithScore(SortDescending(xs), score) == WithScore(xs, score)
  {
    if xs != [] {
      var front, last := xs[..|xs| - 1], xs[|xs| - 1];
      SortKeepsClasses(front, score);
      SortDescends(front);
      InsertKeepsClasses(SortDescending(front), last, score);
    }
  }

  /** Descending, the same elements, and elements of equal score in their original order:
      the three facts that make a stable descending sort. */
  lemma SortIsStable(xs: seq<Ranked>, score: real)
    ensures Descending(SortDescending(xs))
    ensures multiset(SortDescending(xs)) == multiset(xs)
    ensures WithScore(SortDescending(xs), score) == WithScore(xs, score)
  {
    SortDescends(xs);
    SortPermutes(xs);
    SortKeepsClasses(xs, score);
  }

  // --------------------------------------------------------------- the merge

  /** The dictionaries after some documents: scores and first documents under the keys
      met so far, in the order they were met. */
  ghost predicate Accumulated(order: seq<string>, scores: map<string, real>, data: map<string, Doc>,
                              docs: seq<Doc>, keyOf: Doc -> string)
  {
    && order == FirstSeen(docs, keyOf) && Distinct(order)
    && (forall x :: x in scores <==> x in order)
    && (forall x :: x in data <==> x in order)
    && forall x | x in data :: FirstWith(docs, keyOf, x) == Some(data[x])
  }

  /** `scores[key] = scores.get(key, 0.0) + share`. */
  function Raised(scores: map<string, real>, key: string, share: real): map<string, real> {
    scores[key := (if key in scores then scores[key] else 0.0) + share]
  }

  lemma AppendKey(docs: seq<Doc>, doc: Doc, keyOf: Doc -> string)
    ensures FirstSeen(docs + [doc], keyOf) == PushNew(FirstSeen(docs, keyOf), keyOf(doc))
    ensures Distinct(FirstSeen(docs + [doc], keyOf))
  {
    assert (docs + [doc])[..|docs|] == docs;
    FirstSeenIsDistinct(docs + [doc], keyOf);
  }

  lemma AppendFirst(docs: seq<Doc>, doc: Doc, keyOf: Doc -> string, x: string)
    ensures FirstWith(docs + [doc], keyOf, x)
         == if FirstWith(docs, keyOf, x).None? && keyOf(doc) == x then Some(doc) else FirstWith(docs, keyOf, x)
  {
    assert (docs + [doc])[..|docs|] == docs;
  }

  lemma AccumulateOne(order: seq<string>, scores: map<string, real>, data: map<string, Doc>,
                      docs: seq<Doc>, doc: Doc, keyOf: Doc -> string, share: real)
    requires Accumulated(order, scores, data, docs, keyOf)
    ensures var key := keyOf(doc);
            Accumulated(PushNew(order, key), Raised(scores, key, share),
                        if key in order then data else data[key := doc], docs + [doc], keyOf)
  {
    var key := keyOf(doc);
    AppendKey(docs, doc, keyOf);
    if key !in order {
      FirstSeenIsDistinct(docs, keyOf);
      FirstWithIsFirst(docs, keyOf, key);
    }
    forall x {
      AppendFirst(docs, doc, keyOf, x);
    }
  }

  /** Adding a share to one key adds it to the sum of all scores. */
  lemma SumGrows(order: seq<string>, scores: map<string, real>, key: string, share: real)
    requires Distinct(order) && forall x :: x in scores <==> x in order
    ensures var order' := PushNew(order, key);
            var scores' := Raised(scores, key, share);
            (forall x | x in order' :: x in scores') && SumOver(order', scores') == SumOver(order, scores) + share
  {
    if key in order {
      SumRaised(order, scores, key, share);
    } else {
      SumIgnoresOthers(order, scores, key, share);
      assert (order + [key])[..|order|] == order;
    }
  }

  /** One document: `get(...) + share`, then `setdefault`. */
  method AddDoc(doc: Doc, share: real, keyOf: Doc -> string, ghost docs: seq<Doc>,
                order: seq<string>, scores: map<string, real>, data: map<string, Doc>)
    returns (order': seq<string>, scores': map<string, real>, data': map<string, Doc>)
    requires Accumulated(order, scores, data, docs, keyOf)
    ensures Accumulated(order', scores', data', docs + [doc], keyOf)
    ensures scores' == Raised(scores, keyOf(doc), share)
    ensures SumOver(order', scores') == SumOver(order, scores) + share
  {
    var key := keyOf(doc);
    order' := PushNew(order, key);
    scores' := Raised(scores, key, share);
    data' := if key in order then data else data[key := doc];
    AccumulateOne(order, scores, data, docs, doc, keyOf, share);
    SumGrows(order, scores, key, share);
  }

  /** `scores'` is `scores` with the shares of a list added, key by key. */
  ghost predicate Gained(scores: map<string, real>, scores': map<string, real>,
                         docs: seq<Doc>, weight: real, k: nat, keyOf: Doc -> string)
  {
    && scores.Keys <= scores'.Keys
    && (forall x | x in scores' ::
          scores'[x] == (if x in scores then scores[x] else 0.0) + ListScore(docs, weight, k, keyOf, x))
    && forall x | x !in scores' :: ListScore(docs, weight, k, keyOf, x) == 0.0
  }

  lemma ListScoreStep(docs: seq<Doc>, weight: real, k: nat, keyOf: Doc -> string, x: string, i: nat)
    requires i < |docs|
    ensures ListScore(docs[..i + 1], weight, k, keyOf, x)
         == ListScore(docs[..i], weight, k, keyOf, x) + (if keyOf(docs[i]) == x then Share(weight, k, i + 1) else 0.0)
  {
    assert docs[..i + 1][..i] == docs[..i];
  }

  lemma GainedStep(scores: map<string, real>, scores': map<string, real>,
                   docs: seq<Doc>, weight: real, k: nat, keyOf: Doc -> string, i: nat)
    requires i < |docs| && Gained(scores, scores', docs[..i], weight, k, keyOf)
    ensures Gained(scores, Raised(scores', keyOf(docs[i]), Share(weight, k, i + 1)), docs[..i + 1], weight, k, keyOf)
  {
    forall x {
      ListScoreStep(docs, weight, k, keyOf, x, i);
    }
  }

  lemma ListTotalStep(docs: seq<Doc>, weight: real, k: nat, i: nat)
    requires i < |docs|
    ensures ListTotal(docs[..i + 1], weight, k) == ListTotal(docs[..i], weight, k) + Share(weight, k, i + 1)
  {
    assert docs[..i + 1][..i] == docs[..i];
  }

  lemma OneMore(docs: seq<Doc>, list: seq<Doc>, i: nat)
    requires i < |list|
    ensures docs + list[..i] + [list[i]] == docs + list[..i + 1]
  {
  }

  /** The inner loop: one source after `docs` have been accumulated from the earlier ones. */
  method AddSource(source: Source, k: nat, keyOf: Doc -> string, ghost docs: seq<Doc>,
                   order: seq<string>, scores: map<string, real>, data: map<string, Doc>)
    returns (order': seq<string>, scores': map<string, real>, data': map<string, Doc>)
    requires Accumulated(order, scores, data, docs, keyOf)
    ensures Accumulated(order', scores', data', docs + source.docs, keyOf)
    ensures Gained(scores, scores', source.docs, source.weight, k, keyOf)
    ensures SumOver(order', scores') == SumOver(order, scores) + ListTotal(source.docs, source.weight, k)
  {
    order', scores', data' := order, scores, data;
    var list, weight := source.docs, source.weight;
    assert docs + list[..0] == docs;
    for i := 0 to |list|
      invariant Accumulated(order', scores', data', docs + list[..i], keyOf)
      invariant Gained(scores, scores', list[..i], weight, k, keyOf)
      invariant SumOver(order', scores') == SumOver(order, scores) + ListTotal(list[..i], weight, k)
    {
      OneMore(docs, list, i);
      GainedStep(scores, scores', list, weight, k, keyOf, i);
      ListTotalStep(list, weight, k, i);
      order', scores', data' :=
        AddDoc(list[i], Share(weight, k, i + 1), keyOf, docs + list[..i], order', scores', data');
    }
    assert list[..|list|] == list;
  }

  /** One entry per distinct key, in order of first appearance, before sorting. */
  function FusedItems(sources: seq<Source>, k: nat, keyOf: Doc -> string): (items: seq<Ranked>)
    ensures |items| == |FirstSeen(AllDocs(sources), keyOf)|
  {
    var docs := AllDocs(sources);
    var order := FirstSeen(docs, keyOf);
    seq(|order|, i requires 0 <= i < |order| =>
      FusedItem(order[i], FirstWith(docs, keyOf, order[i]), Score(sources, k, keyOf, order[i])))
  }

  function FusedItem(key: string, first: Option<Doc>, score: real): Ranked {
    Ranked(key, (if first.Some? then first.value else Doc(map[], None)).(rrfScore := Some(score)), score)
  }

  /** Every key once, with the first document that has it and its score. */
  lemma FusedItemsAreFirsts(sources: seq<Source>, k: nat, keyOf: Doc -> string, i: nat)
    requires i < |FusedItems(sources, k, keyOf)|
    ensures var item := FusedItems(sources, k, keyOf)[i];
            && item.score == Score(sources, k, keyOf, item.key)
            && exists doc :: IsFirst(AllDocs(sources), keyOf, item.key, doc) && item.doc == doc.(rrfScore := Some(item.score))
  {
    var docs := AllDocs(sources);
    var key := FirstSeen(docs, keyOf)[i];
    FirstSeenIsDistinct(docs, keyOf);
    FirstWithIsFirst(docs, keyOf, key);
    assert key in FirstSeen(docs, keyOf);
  }

  function SumScores(items: seq<Ranked>): real {
    if items == [] then 0.0 else SumScores(items[..|items| - 1]) + items[|items| - 1].score
  }

  lemma {:induction false} InsertAddsScore(sorted: seq<Ranked>, x: Ranked)
    ensures SumScores(Insert(sorted, x)) == SumScores(sorted) + x.score
  {
    var n := |sorted|;
    if sorted == [] || sorted[n - 1].score >= x.score {
      assert (sorted + [x])[..n] == sorted;
    } else {
      InsertAddsScore(sorted[..n - 1], x);
      var front := Insert(sorted[..n - 1], x);
      assert (front + [sorted[n - 1]])[..|front|] == front;
    }
  }

  lemma {:induction false} SortKeepsSum(xs: seq<Ranked>)
    ensures SumScores(SortDescending(xs)) == SumScores(xs)
  {
    if xs != [] {
      SortKeepsSum(xs[..|xs| - 1]);
      InsertAddsScore(SortDescending(xs[..|xs| - 1]), xs[|xs| - 1]);
    }
  }

  /** `max_results` 0 stands for no limit. */
  function Truncated(items: seq<Ranked>, maxResults: nat): seq<Ranked> {
    if maxResults == 0 || |items| <= maxResults then items else items[..maxResults]
  }

  /** Every key met so far has its score, and the others have none. */
  ghost predicate ScoresAre(scores: map<string, real>, sources: seq<Source>, k: nat, keyOf: Doc -> string) {
    && (forall x | x in scores :: scores[x] == Score(sources, k, keyOf, x))
    && forall x | x !in scores :: Score(sources, k, keyOf, x) == 0.0
  }

  lemma SourcesNext(sources: seq<Source>, i: nat, k: nat)
    requires i < |sources|
    ensures AllDocs(sources[..i + 1]) == AllDocs(sources[..i]) + sources[i].docs
    ensures Total(sources[..i + 1], k) == Total(sources[..i], k) + ListTotal(sources[i].docs, sources[i].weight, k)
  {
    assert sources[..i + 1][..i] == sources[..i];
  }

  lemma ScoresNext(scores: map<string, real>, scores': map<string, real>, sources: seq<Source>, i: nat, k: nat,
                   keyOf: Doc -> string)
    requires i < |sources| && ScoresAre(scores, sources[..i], k, keyOf)
    requires Gained(scores, scores', sources[i].docs, sources[i].weight, k, keyOf)
    ensures ScoresAre(scores', sources[..i + 1], k, keyOf)
  {
    assert sources[..i + 1][..i] == sources[..i];
  }

  /** The two nested loops. */
  method AccumulateAll(sources: seq<Source>, k: nat, keyOf: Doc -> string)
    returns (order: seq<string>, scores: map<string, real>, data: map<string, Doc>)
    ensures Accumulated(order, scores, data, AllDocs(sources), keyOf)
    ensures ScoresAre(scores, sources, k, keyOf)
    ensures SumOver(order, scores) == Total(sources, k)
  {
    order, scores, data := [], map[], map[];
    ghost var docs := [];
    for i := 0 to |sources|
      invariant docs == AllDocs(sources[..i]) && Accumulated(order, scores, data, docs, keyOf)
      invariant ScoresAre(scores, sources[..i], k, keyOf)
      invariant SumOver(order, scores) == Total(sources[..i], k)
    {
      ghost var before := scores;
      order, scores, data := AddSource(sources[i], k, keyOf, docs, order, scores, data);
      docs := docs + sources[i].docs;
      SourcesNext(sources, i, k);
      ScoresNext(before, scores, sources, i, k, keyOf);
    }
    assert sources[..|sources|] == sources;
  }

  /** The list that is handed to the sort. */
  method Collect(order: seq<string>, scores: map<string, real>, data: map<string, Doc>) returns (list: seq<Ranked>)
    requires forall x | x in order :: x in scores && x in data
    ensures |list| == |order|
    ensures forall i | 0 <= i < |order| ::
              list[i] == Ranked(order[i], data[order[i]].(rrfScore := Some(scores[order[i]])), scores[order[i]])
    ensures SumScores(list) == SumOver(order, scores)
  {
    list := [];
    for i := 0 to |order|
      invariant |list| == i
      invariant forall j | 0 <= j < i ::
        list[j] == Ranked(order[j], data[order[j]].(rrfScore := Some(scores[order[j]])), scores[order[j]])
      invariant SumScores(list) == SumOver(order[..i], scores)
    {
      var key := order[i];
      var item := Ranked(key, data[key].(rrfScore := Some(scores[key])), scores[key]);
      assert (list + [item])[..i] == list && order[..i + 1][..i] == order[..i];
      list := list + [item];
    }
    assert order[..|order|] == order;
  }

  lemma CollectedIsFused(order: seq<string>, scores: map<string, real>, data: map<string, Doc>, list: seq<Ranked>,
                         sources: seq<Source>, k: nat, keyOf: Doc -> string)
    requires Accumulated(order, scores, data, AllDocs(sources), keyOf) && ScoresAre(scores, sources, k, keyOf)
    requires |list| == |order|
    requires forall i | 0 <= i < |order| ::
               list[i] == Ranked(order[i], data[order[i]].(rrfScore := Some(scores[order[i]])), scores[order[i]])
    ensures list == FusedItems(sources, k, keyOf)
  {
    forall i | 0 <= i < |order|
      ensures list[i] == FusedItems(sources, k, keyOf)[i]
    {
      assert order[i] in data && order[i] in scores;
    }
  }

  /** Every distinct key once with its first document and the sum of all its shares, sorted stably in
      descending order; nothing is lost: the scores add up to the shares of all positions. */
  method RrfMerge(sources: seq<Source>, k: nat, keyOf: Doc -> string, maxResults: nat)
    returns (results: seq<Ranked>)
    ensures results == Truncated(SortDescending(FusedItems(sources, k, keyOf)), maxResults)
    ensures maxResults == 0 ==> SumScores(results) == Total(sources, k)
  {
    var order, scores, data := AccumulateAll(sources, k, keyOf);
    var list := Collect(order, scores, data);
    CollectedIsFused(order, scores, data, list, sources, k, keyOf);
    SortKeepsSum(list);
    var sorted := SortDescending(list);
    results := if maxResults == 0 || |sorted| <= maxResults then sorted else sorted[..maxResults];
  }

  // ------------------------------------------------------------- dominance

  /** Occurrences of a key among the first `n` positions. */
  function CountFirst(docs: seq<Doc>, keyOf: Doc -> string, key: string, n: nat): nat
    requires n <= |docs|
  {
    if n == 0 then 0 else CountFirst(docs, keyOf, key, n - 1) + (if keyOf(docs[n - 1]) == key then 1 else 0)
  }

  /** In this list `a` stands at least as high as `b`: at every depth it has occurred at least as often.
      For keys that occur once this compares their ranks, an absent key ranking below all. */
  ghost predicate AtLeastAsHigh(docs: seq<Doc>, keyOf: Doc -> string, a: string, b: string) {
    forall n | 0 <= n <= |docs| :: CountFirst(docs, keyOf, a, n) >= CountFirst(docs, keyOf, b, n)
  }

  ghost predicate StrictlyHigher(docs: seq<Doc>, keyOf: Doc -> string, a: string, b: string) {
    AtLeastAsHigh(docs, keyOf, a, b)
    && exists n | 0 <= n <= |docs| :: CountFirst(docs, keyOf, a, n) > CountFirst(docs, keyOf, b, n)
  }

  /** `p` is the only position of the key, or the length of the list when the key is absent. */
  ghost predicate OnlyAt(docs: seq<Doc>, keyOf: Doc -> string, key: string, p: nat) {
    p <= |docs| && forall i | 0 <= i < |docs| :: keyOf(docs[i]) == key <==> i == p
  }

  lemma {:induction false} CountOnce(docs: seq<Doc>, keyOf: Doc -> string, key: string, p: nat, n: nat)
    requires n <= |docs| && OnlyAt(docs, keyOf, key, p)
    ensures CountFirst(docs, keyOf, key, n) == if p < n then 1 else 0
  {
    if n > 0 {
      CountOnce(docs, keyOf, key, p, n - 1);
    }
  }

  /** For keys without repetition in a list, standing higher is having the better rank. */
  lemma RanksDecide(docs: seq<Doc>, keyOf: Doc -> string, a: string, b: string, p: nat, q: nat)
    requires OnlyAt(docs, keyOf, a, p) && OnlyAt(docs, keyOf, b, q)
    ensures AtLeastAsHigh(docs, keyOf, a, b) <==> p <= q
    ensures StrictlyHigher(docs, keyOf, a, b) <==> p < q
  {
    forall n | 0 <= n <= |docs|
      ensures CountFirst(docs, keyOf, a, n) == if p < n then 1 else 0
      ensures CountFirst(docs, keyOf, b, n) == if q < n then 1 else 0
    {
      CountOnce(docs, keyOf, a, p, n);
      CountOnce(docs, keyOf, b, q, n);
    }
    if p > q {
      assert CountFirst(docs, keyOf, a, q + 1) < CountFirst(docs, keyOf, b, q + 1);
    } else if p < q {
      assert CountFirst(docs, keyOf, a, p + 1) > CountFirst(docs, keyOf, b, p + 1);
    }
  }

  /** The share of the next rank, and the one before it. */
  lemma SharesFall(weight: real, k: nat, rank: nat)
    requires rank >= 1 && weight >= 0.0
    ensures Share(weight, k, rank) >= Share(weight, k, rank + 1) >= 0.0
    ensures weight > 0.0 ==> Share(weight, k, rank) > Share(weight, k, rank + 1) > 0.0
  {
  }

  lemma {:induction false} CountOfPrefix(docs: seq<Doc>, keyOf: Doc -> string, key: string, m: nat, n: nat)
    requires n <= m <= |docs|
    ensures CountFirst(docs[..m], keyOf, key, n) == CountFirst(docs, keyOf, key, n)
  {
    if n > 0 {
      CountOfPrefix(docs, keyOf, key, m, n - 1);
    }
  }

  function ShareAt(weight: real, k: nat, n: nat): real {
    if n == 0 then 0.0 else Share(weight, k, n)
  }

  lemma ScaleFalls(lead: nat, x: real, y: real)
    requires x >= y
    ensures lead as real * x >= lead as real * y
  {
  }

  /** What `a` leads by after `n` positions, in occurrences and in score. */
  function Lead(docs: seq<Doc>, keyOf: Doc -> string, a: string, b: string, n: nat): int
    requires n <= |docs|
  {
    CountFirst(docs, keyOf, a, n) - CountFirst(docs, keyOf, b, n)
  }

  function Margin(docs: seq<Doc>, weight: real, k: nat, keyOf: Doc -> string, a: string, b: string, n: nat): real
    requires n <= |docs|
  {
    ListScore(docs[..n], weight, k, keyOf, a) - ListScore(docs[..n], weight, k, keyOf, b)
  }

  lemma OnePosition(docs: seq<Doc>, weight: real, k: nat, keyOf: Doc -> string, a: string, b: string, n: nat)
    requires 1 <= n <= |docs| && a != b
    ensures Margin(docs, weight, k, keyOf, a, b, n)
         == Margin(docs, weight, k, keyOf, a, b, n - 1)
            + (Lead(docs, keyOf, a, b, n) as real - Lead(docs, keyOf, a, b, n - 1) as real) * Share(weight, k, n)
  {
    assert docs[..n][..n - 1] == docs[..n - 1];
  }

  /** The margin is worth at least the last share times the lead. */
  lemma {:induction false} LeadIsWorth(docs: seq<Doc>, weight: real, k: nat, keyOf: Doc -> string, a: string, b: string, n: nat)
    requires n <= |docs| && weight >= 0.0 && a != b && AtLeastAsHigh(docs, keyOf, a, b)
    ensures Lead(docs, keyOf, a, b, n) >= 0
    ensures Margin(docs, weight, k, keyOf, a, b, n) >= Lead(docs, keyOf, a, b, n) as real * ShareAt(weight, k, n)
  {
    if n > 0 {
      LeadIsWorth(docs, weight, k, keyOf, a, b, n - 1);
      OnePosition(docs, weight, k, keyOf, a, b, n);
      ShareFallsAt(weight, k, n);
      LeadArithmetic(Margin(docs, weight, k, keyOf, a, b, n - 1), Lead(docs, keyOf, a, b, n - 1),
                     Lead(docs, keyOf, a, b, n), ShareAt(weight, k, n - 1), Share(weight, k, n));
    }
  }

  /** Except at the start, where the lead is nothing, shares fall. */
  lemma ShareFallsAt(weight: real, k: nat, n: nat)
    requires n > 0 && weight >= 0.0
    ensures Share(weight, k, n) >= 0.0
    ensures n > 1 ==> ShareAt(weight, k, n - 1) >= Share(weight, k, n)
  {
    SharesFall(weight, k, n);
    if n > 1 {
      SharesFall(weight, k, n - 1);
    }
  }

  lemma LeadArithmetic(margin: real, before: int, after: int, previous: real, share: real)
    requires before >= 0 && (before == 0 || previous >= share) && margin >= before as real * previous
    ensures margin + (after as real - before as real) * share >= after as real * share
  {
    assert margin >= before as real * share by {
      if before > 0 {
        ScaleFalls(before, previous, share);
      }
    }
    Distributes(before as real, after as real, share);
  }

  lemma Distributes(before: real, after: real, share: real)
    ensures before * share + (after - before) * share == after * share
  {
  }

  /** A list in which `a` has led at some depth leaves it strictly ahead. */
  lemma {:induction false} LedStaysAhead(docs: seq<Doc>, weight: real, k: nat, keyOf: Doc -> string,
                                         a: string, b: string, m: nat, n: nat)
    requires 1 <= m <= n <= |docs| && weight > 0.0 && a != b && AtLeastAsHigh(docs, keyOf, a, b)
    requires Lead(docs, keyOf, a, b, m) > 0
    ensures Margin(docs, weight, k, keyOf, a, b, n) > 0.0
  {
    LeadIsWorth(docs, weight, k, keyOf, a, b, n);
    SharesFall(weight, k, n);
    var lead := Lead(docs, keyOf, a, b, n);
    if lead > 0 {
      ProductIsPositive(lead as real, Share(weight, k, n));
    } else {
      LedStaysAhead(docs, weight, k, keyOf, a, b, m, n - 1);
      LeadIsWorth(docs, weight, k, keyOf, a, b, n - 1);
      OnePosition(docs, weight, k, keyOf, a, b, n);
      SharesFall(weight, k, n - 1);
      LostLead(Margin(docs, weight, k, keyOf, a, b, n - 1), Lead(docs, keyOf, a, b, n - 1),
               Share(weight, k, n - 1), Share(weight, k, n));
    }
  }

  lemma ProductIsPositive(x: real, y: real)
    requires x > 0.0 && y > 0.0
    ensures x * y > 0.0
  {
  }

  lemma LostLead(margin: real, lead: int, previous: real, share: real)
    requires lead >= 0 && margin > 0.0 && margin >= lead as real * previous && previous > share
    ensures margin + (0.0 - lead as real) * share > 0.0
  {
    if lead > 0 {
      ProductIsPositive(lead as real, previous - share);
      ScaleDifference(lead as real, previous, share);
    }
  }

  lemma ScaleDifference(x: real, y: real, z: real)
    ensures x * (y - z) == x * y - x * z
    ensures (0.0 - x) * z == 0.0 - x * z
  {
  }

  /** At least as high in every list, strictly higher in one that carries weight. */
  ghost predicate Dominates(sources: seq<Source>, keyOf: Doc -> string, a: string, b: string) {
    && (forall i | 0 <= i < |sources| :: sources[i].weight >= 0.0 && AtLeastAsHigh(sources[i].docs, keyOf, a, b))
    && exists i | 0 <= i < |sources| :: sources[i].weight > 0.0 && StrictlyHigher(sources[i].docs, keyOf, a, b)
  }

  lemma ListMargin(source: Source, k: nat, keyOf: Doc -> string, a: string, b: string)
    requires a != b && source.weight >= 0.0 && AtLeastAsHigh(source.docs, keyOf, a, b)
    ensures ListScore(source.docs, source.weight, k, keyOf, a) >= ListScore(source.docs, source.weight, k, keyOf, b)
    ensures source.weight > 0.0 && StrictlyHigher(source.docs, keyOf, a, b) ==>
              ListScore(source.docs, source.weight, k, keyOf, a) > ListScore(source.docs, source.weight, k, keyOf, b)
  {
    var docs, weight, n := source.docs, source.weight, |source.docs|;
    assert docs[..n] == docs;
    LeadIsWorth(docs, weight, k, keyOf, a, b, n);
    if n > 0 {
      SharesFall(weight, k, n);
      assert Lead(docs, keyOf, a, b, n) as real * Share(weight, k, n) >= 0.0;
    }
    if weight > 0.0 && StrictlyHigher(docs, keyOf, a, b) {
      var m :| 0 <= m <= n && CountFirst(docs, keyOf, a, m) > CountFirst(docs, keyOf, b, m);
      LedStaysAhead(docs, weight, k, keyOf, a, b, m, n);
    }
  }

  lemma {:induction false} ScoresFollowDominance(sources: seq<Source>, k: nat, keyOf: Doc -> string, a: string, b: string, n: nat)
    requires n <= |sources| && a != b && Dominates(sources, keyOf, a, b)
    ensures Score(sources[..n], k, keyOf, a) >= Score(sources[..n], k, keyOf, b)
    ensures (exists i | 0 <= i < n :: sources[i].weight > 0.0 && StrictlyHigher(sources[i].docs, keyOf, a, b)) ==>
              Score(sources[..n], k, keyOf, a) > Score(sources[..n], k, keyOf, b)
  {
    if n > 0 {
      ScoresFollowDominance(sources, k, keyOf, a, b, n - 1);
      assert sources[..n][..n - 1] == sources[..n - 1];
      ListMargin(sources[n - 1], k, keyOf, a, b);
    }
  }

  // ------------------------------------------------------------ the final order

  lemma FusedKeysAreDistinct(sources: seq<Source>, k: nat, keyOf: Doc -> string)
    ensures forall i, j | 0 <= i < j < |FusedItems(sources, k, keyOf)| ::
              FusedItems(sources, k, keyOf)[i].key != FusedItems(sources, k, keyOf)[j].key
  {
    FirstSeenIsDistinct(AllDocs(sources), keyOf);
  }

  lemma TwoOccurrences(xs: seq<Ranked>, p: nat, q: nat)
    requires p < q < |xs| && xs[p] == xs[q]
    ensures multiset(xs)[xs[p]] >= 2
  {
    assert xs == xs[..q] + xs[q..];
    assert xs[p] == xs[..q][p] && xs[q] == xs[q..][0];
    assert xs[p] in multiset(xs[..q]) && xs[p] in multiset(xs[q..]);
  }

  lemma {:induction false} OneOccurrence(xs: seq<Ranked>, x: Ranked)
    requires forall i, j | 0 <= i < j < |xs| :: xs[i] != xs[j]
    ensures multiset(xs)[x] <= 1
  {
    if xs != [] {
      var front, last := xs[..|xs| - 1], xs[|xs| - 1];
      assert xs == front + [last];
      OneOccurrence(front, x);
      assert last !in front;
    }
  }

  /** Every key is returned at most once, before and after truncation. */
  lemma SortedKeysAreDistinct(sources: seq<Source>, k: nat, keyOf: Doc -> string, p: nat, q: nat)
    requires p < q < |SortDescending(FusedItems(sources, k, keyOf))|
    ensures var sorted := SortDescending(FusedItems(sources, k, keyOf)); sorted[p].key != sorted[q].key
  {
    var items := FusedItems(sources, k, keyOf);
    var sorted := SortDescending(items);
    SortPermutes(items);
    FusedKeysAreDistinct(sources, k, keyOf);
    if sorted[p].key == sorted[q].key {
      assert sorted[p] in multiset(sorted) && sorted[q] in multiset(sorted);
      assert sorted[p] in items && sorted[q] in items;
      TwoOccurrences(sorted, p, q);
      OneOccurrence(items, sorted[p]);
    }
  }

  lemma DominantOccurs(sources: seq<Source>, keyOf: Doc -> string, a: string, b: string)
    requires Dominates(sources, keyOf, a, b)
    ensures a in FirstSeen(AllDocs(sources), keyOf)
  {
    var i :| 0 <= i < |sources| && StrictlyHigher(sources[i].docs, keyOf, a, b);
    var docs := sources[i].docs;
    assert StrictlyHigher(docs, keyOf, a, b);
    var n :| 0 <= n <= |docs| && CountFirst(docs, keyOf, a, n) > CountFirst(docs, keyOf, b, n);
    CountedOccurs(docs, keyOf, a, n);
    OccursInAll(sources, keyOf, a, i, |sources|);
    assert sources[..|sources|] == sources;
    FirstSeenIsDistinct(AllDocs(sources), keyOf);
  }

  lemma {:induction false} CountedOccurs(docs: seq<Doc>, keyOf: Doc -> string, key: string, n: nat)
    requires n <= |docs| && CountFirst(docs, keyOf, key, n) > 0
    ensures Occurs(docs, keyOf, key)
  {
    if keyOf(docs[n - 1]) != key {
      CountedOccurs(docs, keyOf, key, n - 1);
    }
  }

  lemma {:induction false} OccursInAll(sources: seq<Source>, keyOf: Doc -> string, key: string, i: nat, n: nat)
    requires i < n <= |sources| && Occurs(sources[i].docs, keyOf, key)
    ensures Occurs(AllDocs(sources[..n]), keyOf, key)
  {
    var earlier, last := AllDocs(sources[..n - 1]), sources[n - 1].docs;
    assert sources[..n][..n - 1] == sources[..n - 1];
    if i == n - 1 {
      var j :| 0 <= j < |last| && keyOf(last[j]) == key;
      assert (earlier + last)[|earlier| + j] == last[j];
    } else {
      OccursInAll(sources, keyOf, key, i, n - 1);
      var j :| 0 <= j < |earlier| && keyOf(earlier[j]) == key;
      assert (earlier + last)[j] == earlier[j];
    }
  }

  /** The sorted list holds exactly the fused keys, each with its score. */
  lemma SortedScores(sources: seq<Source>, k: nat, keyOf: Doc -> string, q: nat)
    requires q < |SortDescending(FusedItems(sources, k, keyOf))|
    ensures var item := SortDescending(FusedItems(sources, k, keyOf))[q]; item.score == Score(sources, k, keyOf, item.key)
  {
    var items := FusedItems(sources, k, keyOf);
    SortPermutes(items);
    assert SortDescending(items)[q] in multiset(SortDescending(items));
    assert SortDescending(items)[q] in items;
  }

  lemma SortedHolds(sources: seq<Source>, k: nat, keyOf: Doc -> string, key: string) returns (p: nat)
    requires key in FirstSeen(AllDocs(sources), keyOf)
    ensures var sorted := SortDescending(FusedItems(sources, k, keyOf)); p < |sorted| && sorted[p].key == key
  {
    var items, order := FusedItems(sources, k, keyOf), FirstSeen(AllDocs(sources), keyOf);
    var sorted := SortDescending(items);
    SortPermutes(items);
    var i :| 0 <= i < |order| && order[i] == key;
    assert items[i] in multiset(items);
    assert items[i] in sorted;
    p :| 0 <= p < |sorted| && sorted[p] == items[i];
  }

  lemma DescendingIndex(xs: seq<Ranked>, p: nat, q: nat)
    requires Descending(xs) && p < |xs| && q < |xs| && xs[p].score > xs[q].score
    ensures p < q
  {
  }

  /** Wherever the dominated document is returned, the dominant one stands before it. */
  lemma DominantIsAhead(sources: seq<Source>, k: nat, keyOf: Doc -> string, maxResults: nat, a: string, b: string, q: nat)
    requires a != b && Dominates(sources, keyOf, a, b)
    requires var results := Truncated(SortDescending(FusedItems(sources, k, keyOf)), maxResults);
             q < |results| && results[q].key == b
    ensures exists p | 0 <= p < q :: Truncated(SortDescending(FusedItems(sources, k, keyOf)), maxResults)[p].key == a
  {
    var items := FusedItems(sources, k, keyOf);
    var sorted := SortDescending(items);
    assert Score(sources, k, keyOf, a) > Score(sources, k, keyOf, b) by {
      ScoresFollowDominance(sources, k, keyOf, a, b, |sources|);
      assert sources[..|sources|] == sources;
    }
    DominantOccurs(sources, keyOf, a, b);
    var p := SortedHolds(sources, k, keyOf, a);
    SortedScores(sources, k, keyOf, p);
    SortedScores(sources, k, keyOf, q);
    SortDescends(items);
    DescendingIndex(sorted, p, q);
    assert Truncated(sorted, maxResults)[p].key == a;
  }

  /** What is returned are the best: `maxResults` of them or all, none scoring less than one that is left out; and
      every key that occurs in a list is among all of them. */
  lemma ResultsAreBest(sources: seq<Source>, k: nat, keyOf: Doc -> string, maxResults: nat)
    ensures var items := FusedItems(sources, k, keyOf);
            var sorted := SortDescending(items);
            var results := Truncated(sorted, maxResults);
            && |sorted| == |items| && results <= sorted
            && |results| == (if maxResults == 0 then |items| else Min(maxResults, |items|))
            && (forall p, q | 0 <= p < |results| <= q < |sorted| :: results[p].score >= sorted[q].score)
            && forall key :: Occurs(AllDocs(sources), keyOf, key) <==> exists item | item in items :: item.key == key
  {
    var items := FusedItems(sources, k, keyOf);
    SortDescends(items);
    SortPermutes(items);
    assert |SortDescending(items)| == |multiset(SortDescending(items))| == |multiset(items)| == |items|;
    FirstSeenIsDistinct(AllDocs(sources), keyOf);
    forall key
      ensures Occurs(AllDocs(sources), keyOf, key) <==> exists item | item in items :: item.key == key
    {
      var keys := FirstSeen(AllDocs(sources), keyOf);
      if key in keys {
        var i :| 0 <= i < |keys| && keys[i] == key;
        assert items[i] in items && items[i].key == key;
      }
    }
  }
}

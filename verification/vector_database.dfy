/** The in-memory keyed vector store of aimakerspace/vectordatabase.py.

    The store keeps two insertion-ordered dictionaries: `vectors` (key to embedding) and
    `metadata` (key to a metadata dictionary). A Python dictionary remembers the order in
    which its keys were first added, and `search` and `filter_by_metadata` iterate in that
    order, so each dictionary is modelled as a map together with the sequence of its keys.
    The similarity function is a parameter returning an integer score: the numeric
    metrics themselves are not modelled. */
module VectorDb {
  import opened Wrappers
  import Text

  /** An embedding. Its entries only ever reach a `Measure`. */
  type Vector = seq<int>

  /** A similarity function `distance_measure(query_vector, vector)`; larger is closer. */
  type Measure = (Vector, Vector) -> int

  /** A metadata value; `Null` is Python's None, also what a missing entry reads as. */
  datatype Value = Null | Str(s: string) | Int(i: int) | Bool(b: bool)

  /** A metadata dictionary, or a filter over metadata. */
  type Metadata = map<string, Value>

  /** One search result: the key and its score. */
  datatype Hit = Hit(key: string, score: int)

  /** The exceptions the store raises. */
  datatype Error = KeyError(message: string) | ValueError(message: string)

  /** `search_by_text` returns the hits, or only their keys when `return_as_text` is set. */
  datatype Results = Pairs(hits: seq<Hit>) | Texts(texts: seq<string>)

  /** The five distance metrics that `DISTANCE_METRICS` names. */
  datatype Metric = Cosine | Euclidean | Manhattan | DotProduct | Jaccard

  // ---------------------------------------------------------------------------
  // Dictionaries with insertion order

  /** No key occurs twice. */
  predicate Distinct(s: seq<string>)
  {
    forall i, j :: 0 <= i < j < |s| ==> s[i] != s[j]
  }

  /** `order` lists the keys of `m` in insertion order, each once. */
  ghost predicate Ordered<V>(order: seq<string>, m: map<string, V>)
  {
    Distinct(order) && (forall k :: k in m <==> k in order)
  }

  /** The key order after `d[key] = ...`: a new key goes last, an existing key keeps its place. */
  function AppendNew(order: seq<string>, key: string): (r: seq<string>)
    ensures order <= r && key in r
    ensures forall k :: k in r <==> k in order || k == key
    ensures Distinct(order) ==> Distinct(r)
  {
    if key in order then order else order + [key]
  }

  /** `d.get(k)` on a metadata dictionary: None when the entry is missing. */
  function Get(md: Metadata, k: string): Value
  {
    if k in md then md[k] else Null
  }

  /** Python's `==` on metadata values. A bool is an int in Python, so True equals 1 and
      False equals 0; None equals only None, and a string equals only the same string. */
  predicate PyEq(a: Value, b: Value)
  {
    match (a, b)
    case (Null, Null) => true
    case (Str(x), Str(y)) => x == y
    case (Int(x), Int(y)) => x == y
    case (Bool(x), Bool(y)) => x == y
    case (Bool(x), Int(y)) => y == (if x then 1 else 0)
    case (Int(x), Bool(y)) => x == (if y then 1 else 0)
    case _ => false
  }

  /** The equality is symmetric and reflexive, identifies a bool with its integer value,
      and separates every other pair of distinct values. */
  lemma PyEqSpec(a: Value, b: Value)
    ensures PyEq(a, b) <==> PyEq(b, a)
    ensures PyEq(a, a)
    ensures PyEq(Bool(true), Int(1)) && PyEq(Bool(false), Int(0))
    ensures !a.Bool? && !b.Bool? ==> (PyEq(a, b) <==> a == b)
    ensures PyEq(a, Null) <==> a == Null
  {
  }

  /** `all(doc.get(mk) == mv for mk, mv in filter.items())`. */
  predicate Matches(md: Metadata, filter: Metadata)
  {
    forall k :: k in filter ==> PyEq(Get(md, k), filter[k])
  }

  /** A document tagged True passes a filter asking for 1, and one without the entry
      passes a filter asking for None. */
  lemma MatchesCrossType()
    ensures Matches(map["flag" := Bool(true)], map["flag" := Int(1)])
    ensures Matches(map["flag" := Bool(false)], map["flag" := Int(0)])
    ensures !Matches(map["flag" := Bool(true)], map["flag" := Int(0)])
    ensures Matches(map[], map["flag" := Null])
  {
    assert Get(map["flag" := Bool(true)], "flag") == Bool(true);
  }

  /** `self.metadata.get(key, {})`: the metadata of `key`, empty when it has none. */
  function MetaOf(metadata: map<string, Metadata>, key: string): Metadata
  {
    if key in metadata then metadata[key] else map[]
  }

  // ---------------------------------------------------------------------------
  // The store as a value

  /** The state of a VectorDatabase: both dictionaries with their key orders. */
  datatype Store = Store(
    keys: seq<string>,
    vectors: map<string, Vector>,
    metaKeys: seq<string>,
    metadata: map<string, Metadata>)

  /** The store invariant: each key order matches its dictionary. */
  ghost predicate StoreValid(s: Store)
  {
    Ordered(s.keys, s.vectors) && Ordered(s.metaKeys, s.metadata)
  }

  /** The state of a freshly constructed database. */
  const EmptyStore := Store([], map[], [], map[])

  /** The state after `insert(key, vector, metadata)`. */
  function Inserted(s: Store, key: string, vector: Vector, md: Metadata): (r: Store)
  {
    var keys := AppendNew(s.keys, key);
    var vectors := s.vectors[key := vector];
    if md != map[] then Store(keys, vectors, AppendNew(s.metaKeys, key), s.metadata[key := md])
    else Store(keys, vectors, s.metaKeys, s.metadata)
  }

  /** `insert` always writes the vector, overwriting an earlier one, and keeps the key's
      place in insertion order; the metadata replaces the key's entry only when it is
      non-empty, otherwise earlier metadata stays. Every other key is untouched. */
  lemma InsertedSpec(s: Store, key: string, vector: Vector, md: Metadata)
    ensures StoreValid(s) ==> StoreValid(Inserted(s, key, vector, md))
    ensures var r := Inserted(s, key, vector, md);
      && key in r.vectors && r.vectors[key] == vector
      && r.vectors.Keys == s.vectors.Keys + {key}
      && (forall k :: k in s.vectors && k != key ==> r.vectors[k] == s.vectors[k])
      && s.keys <= r.keys && (key in s.keys ==> r.keys == s.keys)
      && (md != map[] ==> key in r.metadata && r.metadata[key] == md)
      && (md != map[] ==> r.metadata.Keys == s.metadata.Keys + {key})
      && (md == map[] ==> r.metadata == s.metadata && r.metaKeys == s.metaKeys)
      && (forall k :: k in s.metadata && k != key ==> k in r.metadata && r.metadata[k] == s.metadata[k])
  {
  }

  /** `update_metadata(key, md)`: KeyError when `key` has no vector; otherwise the key's
      metadata dictionary (created empty if absent) is merged with `md`, `md` winning. */
  function MetadataUpdated(s: Store, key: string, md: Metadata): (r: Result<Store, Error>)
    ensures r.Err? <==> key !in s.vectors
    ensures r.Err? ==> r.error == KeyError("Document with key '" + key + "' not found")
    ensures r.Ok? ==> StoreValid(s) ==> StoreValid(r.value)
    ensures r.Ok? ==> r.value.keys == s.keys && r.value.vectors == s.vectors
    ensures r.Ok? ==> key in r.value.metadata && r.value.metaKeys == AppendNew(s.metaKeys, key)
    ensures r.Ok? ==> forall mk :: Get(r.value.metadata[key], mk) ==
                                 (if mk in md then md[mk] else Get(MetaOf(s.metadata, key), mk))
    ensures r.Ok? ==> r.value.metadata.Keys == s.metadata.Keys + {key}
    ensures r.Ok? ==> forall k :: k in s.metadata && k != key ==> r.value.metadata[k] == s.metadata[k]
  {
    if key !in s.vectors then Err(KeyError("Document with key '" + key + "' not found"))
    else Ok(Store(s.keys, s.vectors, AppendNew(s.metaKeys, key),
                  s.metadata[key := MetaOf(s.metadata, key) + md]))
  }

  /** The keys of `ks`, in order, whose metadata passes `filter`. */
  function KeysMatching(ks: seq<string>, metadata: map<string, Metadata>, filter: Metadata): (r: seq<string>)
    ensures forall k :: k in r <==> k in ks && Matches(MetaOf(metadata, k), filter)
    ensures |r| <= |ks|
    ensures Distinct(ks) ==> Distinct(r)
    decreases |ks|
  {
    if ks == [] then []
    else
      var key := ks[|ks| - 1];
      var front := KeysMatching(ks[..|ks| - 1], metadata, filter);
      if Matches(MetaOf(metadata, key), filter) then front + [key] else front
  }

  /** Scanning one more key appends it exactly when its metadata passes the filter. */
  lemma KeysMatchingStep(ks: seq<string>, i: nat, metadata: map<string, Metadata>, filter: Metadata)
    requires i < |ks|
    ensures KeysMatching(ks[..i + 1], metadata, filter)
         == KeysMatching(ks[..i], metadata, filter) + (if Matches(MetaOf(metadata, ks[i]), filter) then [ks[i]] else [])
  {
    var seen := ks[..i + 1];
    assert seen[..i] == ks[..i] && seen[i] == ks[i] && |seen| == i + 1;
  }

  /** Over the whole key order of the metadata dictionary, the matching keys are exactly
      the entries whose metadata passes the filter, each once. */
  lemma KeysMatchingOrdered(ks: seq<string>, metadata: map<string, Metadata>, filter: Metadata)
    requires Ordered(ks, metadata)
    ensures var r := KeysMatching(ks, metadata, filter);
      && Distinct(r)
      && forall k :: k in r <==> k in metadata && Matches(metadata[k], filter)
  {
    var r := KeysMatching(ks, metadata, filter);
    forall k ensures k in r <==> k in metadata && Matches(metadata[k], filter) {
      if k in metadata {
        assert MetaOf(metadata, k) == metadata[k];
      }
    }
  }

  /** The keys of a list of hits. */
  function HitKeys(hits: seq<Hit>): (r: seq<string>)
    ensures |r| == |hits| && forall i :: 0 <= i < |hits| ==> r[i] == hits[i].key
  {
    seq(|hits|, i requires 0 <= i < |hits| => hits[i].key)
  }

  /** The `scores` list that `search` builds before sorting: one hit per key of `ks`
      that passes the filter, in the order of `ks`. */
  function Candidates(ks: seq<string>, vectors: map<string, Vector>, metadata: map<string, Metadata>,
                      query: Vector, measure: Measure, filter: Metadata): (r: seq<Hit>)
    requires forall k :: k in ks ==> k in vectors
    ensures HitKeys(r) == KeysMatching(ks, metadata, filter)
    ensures forall h :: h in r ==> h.key in vectors && h.score == measure(query, vectors[h.key])
    decreases |ks|
  {
    if ks == [] then []
    else
      var key := ks[|ks| - 1];
      var front := Candidates(ks[..|ks| - 1], vectors, metadata, query, measure, filter);
      var r := if Matches(MetaOf(metadata, key), filter)
               then front + [Hit(key, measure(query, vectors[key]))] else front;
      assert HitKeys(r) == KeysMatching(ks, metadata, filter) by {
        assert HitKeys(front) == KeysMatching(ks[..|ks| - 1], metadata, filter);
      }
      r
  }

  /** Scanning one more key appends its hit exactly when it passes the filter; an empty
      filter passes every key. */
  lemma CandidatesStep(ks: seq<string>, i: nat, vectors: map<string, Vector>, metadata: map<string, Metadata>,
                       query: Vector, measure: Measure, filter: Metadata)
    requires i < |ks| && forall k :: k in ks ==> k in vectors
    ensures ks[i] in vectors
    ensures Candidates(ks[..i + 1], vectors, metadata, query, measure, filter)
         == Candidates(ks[..i], vectors, metadata, query, measure, filter)
            + (if filter == map[] || Matches(MetaOf(metadata, ks[i]), filter)
               then [Hit(ks[i], measure(query, vectors[ks[i]]))] else [])
  {
    var seen := ks[..i + 1];
    assert seen[..i] == ks[..i] && seen[i] == ks[i] && |seen| == i + 1;
  }

  // ---------------------------------------------------------------------------
  // Stable descending sort and Python slicing

  /** Scores never increase along `h`. */
  predicate SortedDesc(h: seq<Hit>)
  {
    forall i, j :: 0 <= i < j < |h| ==> h[i].score >= h[j].score
  }

  /** The hits of `h` whose score is `v`, in their order in `h`. */
  function Ties(h: seq<Hit>, v: int): seq<Hit>
  {
    if h == [] then [] else (if h[0].score == v then [h[0]] else []) + Ties(h[1..], v)
  }

  /** Places `x` before the first hit of `t` whose score does not exceed its own. */
  function InsertDesc(x: Hit, t: seq<Hit>): seq<Hit>
  {
    if t == [] || t[0].score <= x.score then [x] + t else [t[0]] + InsertDesc(x, t[1..])
  }

  /** `sorted(scores, key=lambda x: x[1], reverse=True)`: a stable sort by descending score. */
  function SortDesc(h: seq<Hit>): seq<Hit>
  {
    if h == [] then [] else InsertDesc(h[0], SortDesc(h[1..]))
  }

  /** Inserting adds exactly `x`. */
  lemma {:induction false} InsertDescPerm(x: Hit, t: seq<Hit>)
    ensures multiset(InsertDesc(x, t)) == multiset(t) + multiset{x}
  {
    if t != [] && t[0].score > x.score {
      InsertDescPerm(x, t[1..]);
      assert t == [t[0]] + t[1..];
    }
  }

  /** No hit of `h` scores above `b`. */
  predicate AtMost(h: seq<Hit>, b: int)
  {
    forall i :: 0 <= i < |h| ==> h[i].score <= b
  }

  /** Inserting a hit that scores at most `b` into hits that do keeps them all at most `b`. */
  lemma {:induction false} InsertDescAtMost(x: Hit, t: seq<Hit>, b: int)
    requires x.score <= b && AtMost(t, b)
    ensures AtMost(InsertDesc(x, t), b)
  {
    if t != [] && t[0].score > x.score {
      assert AtMost(t[1..], b) by {
        forall i | 0 <= i < |t[1..]| ensures t[1..][i].score <= b {
          assert t[1..][i] == t[i + 1];
        }
      }
      InsertDescAtMost(x, t[1..], b);
    }
  }

  /** Inserting into a descending list keeps it descending. */
  lemma {:induction false} InsertDescSorted(x: Hit, t: seq<Hit>)
    requires SortedDesc(t)
    ensures SortedDesc(InsertDesc(x, t))
  {
    if t != [] && t[0].score > x.score {
      var tail := t[1..];
      assert SortedDesc(tail) && AtMost(tail, t[0].score) by {
        forall i | 0 <= i < |tail| ensures tail[i] == t[i + 1] {
        }
      }
      InsertDescSorted(x, tail);
      InsertDescAtMost(x, tail, t[0].score);
      var rest := InsertDesc(x, tail);
      var u := [t[0]] + rest;
      assert u == InsertDesc(x, t);
      forall i, j | 0 <= i < j < |u| ensures u[i].score >= u[j].score {
        assert u[j] == rest[j - 1];
        if i > 0 {
          assert u[i] == rest[i - 1];
        }
      }
    }
  }

  /** `x` is placed ahead of every hit with its own score: among equals it comes first. */
  lemma {:induction false} InsertDescTies(x: Hit, t: seq<Hit>, v: int)
    ensures Ties(InsertDesc(x, t), v) == (if x.score == v then [x] else []) + Ties(t, v)
  {
    var xt := if x.score == v then [x] else [];
    if t == [] || t[0].score <= x.score {
      var u := [x] + t;
      assert u[0] == x && u[1..] == t;
      assert Ties(u, v) == xt + Ties(t, v);
    } else {
      var rest := InsertDesc(x, t[1..]);
      var u := [t[0]] + rest;
      var t0t := if t[0].score == v then [t[0]] else [];
      InsertDescTies(x, t[1..], v);
      assert u[0] == t[0] && u[1..] == rest;
      assert Ties(u, v) == t0t + Ties(rest, v);
      assert Ties(t, v) == t0t + Ties(t[1..], v);
      if x.score == v {
        assert t0t == [];
      } else {
        assert xt == [];
      }
    }
  }

  /** The sort orders by descending score. */
  lemma {:induction false} SortDescSorted(h: seq<Hit>)
    ensures SortedDesc(SortDesc(h))
  {
    if h != [] {
      SortDescSorted(h[1..]);
      InsertDescSorted(h[0], SortDesc(h[1..]));
    }
  }

  /** The sort permutes its input. */
  lemma {:induction false} SortDescPerm(h: seq<Hit>)
    ensures multiset(SortDesc(h)) == multiset(h)
    ensures |SortDesc(h)| == |h|
  {
    if h != [] {
      SortDescPerm(h[1..]);
      InsertDescPerm(h[0], SortDesc(h[1..]));
      assert h == [h[0]] + h[1..];
    }
    assert |SortDesc(h)| == |multiset(SortDesc(h))|;
  }

  /** The sort is stable: hits with equal scores keep their input order. */
  lemma {:induction false} SortDescStable(h: seq<Hit>, v: int)
    ensures Ties(SortDesc(h), v) == Ties(h, v)
  {
    if h != [] {
      SortDescStable(h[1..], v);
      InsertDescTies(h[0], SortDesc(h[1..]), v);
    }
  }

  /** Ties of a prefix are a prefix of the ties. */
  lemma {:induction false} TiesOfPrefix(a: seq<Hit>, b: seq<Hit>, v: int)
    requires a <= b
    ensures Ties(a, v) <= Ties(b, v)
  {
    if a != [] {
      assert a[1..] <= b[1..];
      TiesOfPrefix(a[1..], b[1..], v);
    }
  }

  function Min(a: int, b: int): int { if a <= b then a else b }

  function Max(a: int, b: int): int { if a >= b then a else b }

  /** Python's `s[:k]`: at most `k` leading items; a negative `k` drops `-k` trailing ones. */
  function SliceTo<T>(s: seq<T>, k: int): (r: seq<T>)
    ensures r <= s
    ensures k >= 0 ==> |r| == Min(k, |s|)
    ensures k < 0 ==> |r| == Max(0, |s| + k)
  {
    if k >= 0 then s[..Min(k, |s|)] else s[..Max(0, |s| + k)]
  }

  /** What `search(query_vector, k, distance_measure, filter_metadata)` returns. */
  function SearchResults(s: Store, query: Vector, k: int, measure: Measure, filter: Metadata): seq<Hit>
    requires StoreValid(s)
  {
    SliceTo(SortDesc(Candidates(s.keys, s.vectors, s.metadata, query, measure, filter)), k)
  }

  /** Everything `search` promises: the result size, descending order, that every hit is a
      stored key passing the filter with its own score, that ties keep the insertion order
      of `vectors`, and that no left-out candidate scores above a returned one. */
  lemma SearchResultsSpec(s: Store, query: Vector, k: int, measure: Measure, filter: Metadata)
    requires StoreValid(s)
    ensures var r := SearchResults(s, query, k, measure, filter);
      && (k >= 0 ==> |r| == Min(k, |KeysMatching(s.keys, s.metadata, filter)|))
      && SortedDesc(r)
      && (forall h :: h in r ==> h.key in s.vectors && Matches(MetaOf(s.metadata, h.key), filter)
                                 && h.score == measure(query, s.vectors[h.key]))
      && (forall v :: Ties(r, v) <= Ties(Candidates(s.keys, s.vectors, s.metadata, query, measure, filter), v))
      && (forall c :: c in Candidates(s.keys, s.vectors, s.metadata, query, measure, filter) && c !in r ==>
            forall i :: 0 <= i < |r| ==> c.score <= r[i].score)
  {
    var cands := Candidates(s.keys, s.vectors, s.metadata, query, measure, filter);
    TruncatedSortSpec(cands, k);
    assert |cands| == |HitKeys(cands)|;
  }

  /** A truncated stable sort: a descending prefix of the sorted list whose members come
      from the input, whose ties are a prefix of the input's ties, and which keeps the
      highest scores. */
  lemma TruncatedSortSpec(cands: seq<Hit>, k: int)
    ensures var r := SliceTo(SortDesc(cands), k);
      && (k >= 0 ==> |r| == Min(k, |cands|))
      && SortedDesc(r)
      && (forall h :: h in r ==> h in cands)
      && (forall v :: Ties(r, v) <= Ties(cands, v))
      && (forall c :: c in cands && c !in r ==> forall i :: 0 <= i < |r| ==> c.score <= r[i].score)
  {
    var sorted := SortDesc(cands);
    var r := SliceTo(sorted, k);
    SortDescSorted(cands);
    SortDescPerm(cands);
    forall h | h in r ensures h in cands {
      assert h in multiset(sorted);
    }
    forall v ensures Ties(r, v) <= Ties(cands, v) {
      TiesOfPrefix(r, sorted, v);
      SortDescStable(cands, v);
    }
    forall c | c in cands && c !in r ensures forall i :: 0 <= i < |r| ==> c.score <= r[i].score {
      assert c in multiset(sorted);
      var p :| 0 <= p < |sorted| && sorted[p] == c;
      assert p >= |r|;
      forall i | 0 <= i < |r| ensures c.score <= r[i].score {
        assert r[i] == sorted[i];
      }
    }
  }

  // ---------------------------------------------------------------------------
  // Building from a list and the metric table

  /** `metadata_list[i]` when it exists, otherwise no metadata. */
  function MetadataAt(metadataList: seq<Metadata>, i: nat): Metadata
  {
    if i < |metadataList| then metadataList[i] else map[]
  }

  /** The store after the first `n` insertions of `abuild_from_list`. */
  function BuiltPrefix(s: Store, texts: seq<string>, embeddings: seq<Vector>,
                       metadataList: seq<Metadata>, n: nat): (r: Store)
    requires n <= |texts| && n <= |embeddings|
    decreases n
  {
    if n == 0 then s
    else Inserted(BuiltPrefix(s, texts, embeddings, metadataList, n - 1),
                  texts[n - 1], embeddings[n - 1], MetadataAt(metadataList, n - 1))
  }

  /** One more turn of the build loop inserts the next text with its embedding and metadata. */
  lemma BuiltPrefixNext(s: Store, texts: seq<string>, embeddings: seq<Vector>,
                        metadataList: seq<Metadata>, i: nat)
    requires i < |texts| && i < |embeddings|
    ensures BuiltPrefix(s, texts, embeddings, metadataList, i + 1)
         == Inserted(BuiltPrefix(s, texts, embeddings, metadataList, i), texts[i], embeddings[i], MetadataAt(metadataList, i))
  {
  }

  /** The store after `abuild_from_list(texts, metadata_list)` given the embeddings of the
      texts: the pairs of `zip(texts, embeddings)` are inserted in order, keyed by the text. */
  function Built(s: Store, texts: seq<string>, embeddings: seq<Vector>, metadataList: seq<Metadata>): Store
  {
    BuiltPrefix(s, texts, embeddings, metadataList, Min(|texts|, |embeddings|))
  }

  /** The texts among the first `n`, as a set. */
  function TextsUpTo(texts: seq<string>, n: nat): (r: set<string>)
    requires n <= |texts|
  {
    if n == 0 then {} else TextsUpTo(texts, n - 1) + {texts[n - 1]}
  }

  /** One insertion writes exactly the one vector. */
  lemma InsertedVectors(s: Store, key: string, vector: Vector, md: Metadata)
    ensures Inserted(s, key, vector, md).vectors == s.vectors[key := vector]
  {
  }

  /** The `vectors` map after the first `n` insertions of the build, starting from `base`. */
  function BuiltVectors(base: map<string, Vector>, texts: seq<string>, embeddings: seq<Vector>, n: nat)
    : map<string, Vector>
    requires n <= |texts| && n <= |embeddings|
    decreases n
  {
    if n == 0 then base
    else BuiltVectors(base, texts, embeddings, n - 1)[texts[n - 1] := embeddings[n - 1]]
  }

  /** The build loop touches only `vectors` through its inserts, one key at a time. */
  lemma {:induction false} BuiltPrefixVectors(s: Store, texts: seq<string>, embeddings: seq<Vector>,
                                              metadataList: seq<Metadata>, n: nat)
    requires n <= |texts| && n <= |embeddings|
    ensures BuiltPrefix(s, texts, embeddings, metadataList, n).vectors == BuiltVectors(s.vectors, texts, embeddings, n)
    decreases n
  {
    if n > 0 {
      var prev := BuiltPrefix(s, texts, embeddings, metadataList, n - 1);
      BuiltPrefixVectors(s, texts, embeddings, metadataList, n - 1);
      InsertedVectors(prev, texts[n - 1], embeddings[n - 1], MetadataAt(metadataList, n - 1));
    }
  }

  /** After `n` insertions the keys are the earlier keys plus every text inserted so far:
      duplicate texts collapse to one key. */
  lemma {:induction false} BuiltVectorsKeys(base: map<string, Vector>, texts: seq<string>, embeddings: seq<Vector>, n: nat)
    requires n <= |texts| && n <= |embeddings|
    ensures BuiltVectors(base, texts, embeddings, n).Keys == base.Keys + TextsUpTo(texts, n)
    decreases n
  {
    if n > 0 {
      BuiltVectorsKeys(base, texts, embeddings, n - 1);
    }
  }

  /** Position `i` holds the last occurrence of its text among the first `n`. */
  predicate LastOccurrence(texts: seq<string>, i: nat, n: nat)
    requires i < n <= |texts|
  {
    forall j :: i < j < n ==> texts[j] != texts[i]
  }

  /** After `n` insertions a text's vector is the embedding of its LAST occurrence so far:
      last write wins. */
  lemma {:induction false} BuiltVectorsLastWins(base: map<string, Vector>, texts: seq<string>,
                                                embeddings: seq<Vector>, n: nat)
    requires n <= |texts| && n <= |embeddings|
    ensures forall i :: 0 <= i < n && LastOccurrence(texts, i, n) ==>
              texts[i] in BuiltVectors(base, texts, embeddings, n) &&
              BuiltVectors(base, texts, embeddings, n)[texts[i]] == embeddings[i]
    decreases n
  {
    if n > 0 {
      var cur := BuiltVectors(base, texts, embeddings, n);
      BuiltVectorsLastWins(base, texts, embeddings, n - 1);
      forall i | 0 <= i < n && LastOccurrence(texts, i, n)
        ensures texts[i] in cur && cur[texts[i]] == embeddings[i]
      {
        if i < n - 1 {
          assert texts[n - 1] != texts[i];
          assert LastOccurrence(texts, i, n - 1);
        }
      }
    }
  }

  /** A key that none of the first `n` texts names keeps its earlier vector. */
  lemma {:induction false} BuiltVectorsUntouched(base: map<string, Vector>, texts: seq<string>,
                                                 embeddings: seq<Vector>, n: nat)
    requires n <= |texts| && n <= |embeddings|
    ensures forall k :: k in base && k !in TextsUpTo(texts, n) ==>
              k in BuiltVectors(base, texts, embeddings, n) && BuiltVectors(base, texts, embeddings, n)[k] == base[k]
    decreases n
  {
    if n > 0 {
      BuiltVectorsUntouched(base, texts, embeddings, n - 1);
    }
  }

  /** Building into an empty store yields one key per distinct text among the first
      min(|texts|, |embeddings|), so never more keys than pairs inserted. */
  lemma BuiltDistinctKeys(texts: seq<string>, embeddings: seq<Vector>, metadataList: seq<Metadata>)
    ensures var n := Min(|texts|, |embeddings|);
      && Built(EmptyStore, texts, embeddings, metadataList).vectors.Keys == TextsUpTo(texts, n)
      && |Built(EmptyStore, texts, embeddings, metadataList).vectors| <= n
      && ((exists i, j :: 0 <= i < j < n && texts[i] == texts[j]) ==>
            |Built(EmptyStore, texts, embeddings, metadataList).vectors| < n)
  {
    var n := Min(|texts|, |embeddings|);
    BuiltPrefixVectors(EmptyStore, texts, embeddings, metadataList, n);
    BuiltVectorsKeys(map[], texts, embeddings, n);
    TextsUpToSize(texts, n);
    if exists i, j :: 0 <= i < j < n && texts[i] == texts[j] {
      TextsUpToRepeat(texts, n);
    }
    var vs := Built(EmptyStore, texts, embeddings, metadataList).vectors;
    assert |vs| == |vs.Keys|;
  }

  /** The first `n` texts make a set of at most `n` elements. */
  lemma {:induction false} TextsUpToSize(texts: seq<string>, n: nat)
    requires n <= |texts|
    ensures |TextsUpTo(texts, n)| <= n
  {
    if n > 0 {
      TextsUpToSize(texts, n - 1);
    }
  }

  /** Every one of the first `n` texts is in their set. */
  lemma {:induction false} TextsUpToMember(texts: seq<string>, n: nat, i: nat)
    requires i < n <= |texts|
    ensures texts[i] in TextsUpTo(texts, n)
    decreases n
  {
    if i < n - 1 {
      TextsUpToMember(texts, n - 1, i);
    }
  }

  /** A text that occurs twice among the first `n` leaves fewer than `n` distinct keys. */
  lemma {:induction false} TextsUpToRepeat(texts: seq<string>, n: nat)
    requires n <= |texts|
    requires exists i, j :: 0 <= i < j < n && texts[i] == texts[j]
    ensures |TextsUpTo(texts, n)| < n
    decreases n
  {
    var i, j :| 0 <= i < j < n && texts[i] == texts[j];
    if j == n - 1 {
      TextsUpToMember(texts, n - 1, i);
      assert TextsUpTo(texts, n) == TextsUpTo(texts, n - 1);
      TextsUpToSize(texts, n - 1);
    } else {
      TextsUpToRepeat(texts, n - 1);
    }
  }

  /** `filter_by_metadata` only ever sees keys of the metadata dictionary: a key inserted
      without metadata is absent from its answer, even for the empty filter. */
  lemma InsertedWithoutMetadataUnlisted(s: Store, key: string, vector: Vector, filter: Metadata)
    requires StoreValid(s) && key !in s.metadata
    ensures var r := Inserted(s, key, vector, map[]);
      key in r.vectors && key !in KeysMatching(r.metaKeys, r.metadata, filter)
  {
    InsertedSpec(s, key, vector, map[]);
  }

  /** Once `update_metadata` has created the entry, even with no new entries, the key
      passes the empty filter. */
  lemma UpdatedMetadataListed(s: Store, key: string, md: Metadata)
    requires StoreValid(s) && key in s.vectors
    ensures MetadataUpdated(s, key, md).Ok?
    ensures var r := MetadataUpdated(s, key, md).value;
      key in KeysMatching(r.metaKeys, r.metadata, map[])
  {
  }

  /** The keys of `DISTANCE_METRICS`, in the dictionary's order. */
  const MetricNames: seq<string> := ["cosine", "euclidean", "manhattan", "dot_product", "jaccard"]

  /** `DISTANCE_METRICS[name]`, or None when the name is not in the table. */
  function MetricByName(name: string): (r: Option<Metric>)
    ensures r.Some? <==> name in MetricNames
  {
    match name
    case "cosine" => Some(Cosine)
    case "euclidean" => Some(Euclidean)
    case "manhattan" => Some(Manhattan)
    case "dot_product" => Some(DotProduct)
    case "jaccard" => Some(Jaccard)
    case _ => None
  }

  /** The table key under which a metric is registered; looking it up finds the metric. */
  function MetricName(m: Metric): (name: string)
    ensures name in MetricNames && MetricByName(name) == Some(m)
  {
    match m
    case Cosine => "cosine"
    case Euclidean => "euclidean"
    case Manhattan => "manhattan"
    case DotProduct => "dot_product"
    case Jaccard => "jaccard"
  }

  /** Python's repr of a list of strings, as an f-string prints `list(DISTANCE_METRICS.keys())`. */
  function ReprList(items: seq<string>): string
  {
    "[" + Text.Join(", ", seq(|items|, i requires 0 <= i < |items| => "'" + items[i] + "'")) + "]"
  }

  /** The ValueError text for an unknown metric name. */
  function UnknownMetric(name: string): Error
  {
    ValueError("Unknown metric: " + name + ". Available: " + ReprList(MetricNames))
  }

  // ---------------------------------------------------------------------------
  // The database object

  /** `VectorDatabase`: the two dictionaries are fields that the methods update in place.
      The embedding model is not held: callers pass the embeddings it would produce. */
  class VectorDatabase {
    var keys: seq<string>
    var vectors: map<string, Vector>
    var metaKeys: seq<string>
    var metadata: map<string, Metadata>

    /** The current state as a value. */
    function State(): Store
      reads this
    {
      Store(keys, vectors, metaKeys, metadata)
    }

    ghost predicate Valid()
      reads this
    {
      StoreValid(State())
    }

    /** `VectorDatabase(embedding_model)`: both dictionaries start empty. */
    constructor ()
      ensures Valid() && State() == EmptyStore
    {
      keys, vectors, metaKeys, metadata := [], map[], [], map[];
    }

    /** `insert(key, vector, metadata)`. */
    method Insert(key: string, vector: Vector, md: Metadata)
      requires Valid()
      modifies this
      ensures Valid() && State() == Inserted(old(State()), key, vector, md)
    {
      keys := AppendNew(keys, key);
      vectors := vectors[key := vector];
      if md != map[] {
        metaKeys := AppendNew(metaKeys, key);
        metadata := metadata[key := md];
      }
    }

    /** `search(query_vector, k, distance_measure, filter_metadata)`; an absent filter is
        the empty map, which admits every key just as None does. */
    method Search(query: Vector, k: int, measure: Measure, filter: Metadata) returns (r: seq<Hit>)
      requires Valid()
      ensures r == SearchResults(State(), query, k, measure, filter)
      ensures k >= 0 ==> |r| == Min(k, |KeysMatching(keys, metadata, filter)|)
      ensures SortedDesc(r)
      ensures forall h :: h in r ==> h.key in vectors && Matches(MetaOf(metadata, h.key), filter)
                                     && h.score == measure(query, vectors[h.key])
      ensures forall v :: Ties(r, v) <= Ties(Candidates(keys, vectors, metadata, query, measure, filter), v)
    {
      var scores: seq<Hit> := [];
      var i := 0;
      while i < |keys|
        invariant 0 <= i <= |keys|
        invariant scores == Candidates(keys[..i], vectors, metadata, query, measure, filter)
      {
        var key := keys[i];
        CandidatesStep(keys, i, vectors, metadata, query, measure, filter);
        if filter == map[] || Matches(MetaOf(metadata, key), filter) {
          scores := scores + [Hit(key, measure(query, vectors[key]))];
        }
        i := i + 1;
      }
      assert keys[..i] == keys;
      r := SliceTo(SortDesc(scores), k);
      SearchResultsSpec(State(), query, k, measure, filter);
    }

    /** `search_by_text`, given the embedding of the query text. */
    method SearchByText(query: Vector, k: int, measure: Measure, returnAsText: bool, filter: Metadata)
      returns (r: Results)
      requires Valid()
      ensures returnAsText ==> r == Texts(HitKeys(SearchResults(State(), query, k, measure, filter)))
      ensures !returnAsText ==> r == Pairs(SearchResults(State(), query, k, measure, filter))
    {
      var results := Search(query, k, measure, filter);
      r := if returnAsText then Texts(HitKeys(results)) else Pairs(results);
    }

    /** `search_by_metric_name`: ValueError for a name outside the table, otherwise
        `search_by_text` with that metric's function (`measureOf`). */
    method SearchByMetricName(query: Vector, k: int, metricName: string, returnAsText: bool,
                              filter: Metadata, measureOf: Metric -> Measure)
      returns (r: Result<Results, Error>)
      requires Valid()
      ensures metricName !in MetricNames ==> r == Err(UnknownMetric(metricName))
      ensures metricName in MetricNames ==> r.Ok? && MetricByName(metricName).Some?
      ensures r.Ok? ==>
        var hits := SearchResults(State(), query, k, measureOf(MetricByName(metricName).value), filter);
        r.value == if returnAsText then Texts(HitKeys(hits)) else Pairs(hits)
    {
      var metric := MetricByName(metricName);
      if metric.None? {
        return Err(UnknownMetric(metricName));
      }
      var results := SearchByText(query, k, measureOf(metric.value), returnAsText, filter);
      r := Ok(results);
    }

    /** `retrieve_from_key(key)`: the stored vector, or None. */
    function RetrieveFromKey(key: string): (r: Option<Vector>)
      reads this
      ensures r.Some? <==> key in vectors
      ensures r.Some? ==> r.value == vectors[key]
    {
      if key in vectors then Some(vectors[key]) else None
    }

    /** `get_metadata(key)`: the key's metadata, or an empty dictionary. */
    function GetMetadata(key: string): (r: Metadata)
      reads this
      ensures key !in metadata ==> r == map[]
      ensures key in metadata ==> r == metadata[key]
    {
      MetaOf(metadata, key)
    }

    /** `update_metadata(key, md)`: on a missing key raises KeyError and changes nothing. */
    method UpdateMetadata(key: string, md: Metadata) returns (err: Option<Error>)
      requires Valid()
      modifies this
      ensures Valid()
      ensures match MetadataUpdated(old(State()), key, md)
        case Ok(s) => err == None && State() == s
        case Err(e) => err == Some(e) && State() == old(State())
    {
      if key !in vectors {
        return Some(KeyError("Document with key '" + key + "' not found"));
      }
      metaKeys := AppendNew(metaKeys, key);
      metadata := metadata[key := MetaOf(metadata, key) + md];
      err := None;
    }

    /** `filter_by_metadata(filter)`: the keys of the metadata dictionary, in its order,
        whose metadata matches every filter entry. */
    method FilterByMetadata(filter: Metadata) returns (r: seq<string>)
      requires Valid()
      ensures r == KeysMatching(metaKeys, metadata, filter)
      ensures forall k :: k in r <==> k in metadata && Matches(metadata[k], filter)
      ensures Distinct(r)
    {
      var ks, md := metaKeys, metadata;
      r := [];
      var i := 0;
      while i < |ks|
        invariant 0 <= i <= |ks|
        invariant r == KeysMatching(ks[..i], md, filter)
      {
        var key := ks[i];
        KeysMatchingStep(ks, i, md, filter);
        if Matches(MetaOf(md, key), filter) {
          r := r + [key];
        }
        i := i + 1;
      }
      assert ks[..i] == ks;
      KeysMatchingOrdered(ks, md, filter);
    }

    /** One turn of the build loop: insert the next text with its embedding and metadata. */
    method InsertNext(ghost start: Store, texts: seq<string>, embeddings: seq<Vector>,
                      metadataList: seq<Metadata>, i: nat)
      requires i < |texts| && i < |embeddings|
      requires Valid() && State() == BuiltPrefix(start, texts, embeddings, metadataList, i)
      modifies this
      ensures Valid() && State() == BuiltPrefix(start, texts, embeddings, metadataList, i + 1)
    {
      Insert(texts[i], embeddings[i], MetadataAt(metadataList, i));
      BuiltPrefixNext(start, texts, embeddings, metadataList, i);
    }

    /** The insertion loop of `abuild_from_list(texts, metadata_list)`, given the
        embeddings the model returned for `texts`; a missing metadata list is `[]`. */
    method AbuildFromList(texts: seq<string>, embeddings: seq<Vector>, metadataList: seq<Metadata>)
      requires Valid()
      modifies this
      ensures Valid() && State() == Built(old(State()), texts, embeddings, metadataList)
    {
      ghost var start := State();
      var n := Min(|texts|, |embeddings|);
      var i := 0;
      while i < n
        invariant 0 <= i <= n
        invariant Valid() && State() == BuiltPrefix(start, texts, embeddings, metadataList, i)
      {
        InsertNext(start, texts, embeddings, metadataList, i);
        i := i + 1;
      }
    }
  }
}

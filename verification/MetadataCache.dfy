/** The cache of a metadata service, over a backend whose reads may fail for a while. */
module MetadataCache {
  import opened Basics

  type Bytes = seq<byte>

  /** What a lookup yields: the bytes, or the text they decode to; None when they do not decode. */
  datatype Data = Raw(bytes: Bytes) | Text(text: Option<string>)

  datatype Key = Key(path: string, decode: bool)

  /** The metadata behind the service, and the decoder. */
  datatype Backend = Backend(content: map<string, Bytes>, decoder: Bytes -> Option<string>)

  datatype Answer = Found(data: Data) | NotExisting | Failed

  /** Fetching and decoding without a cache, when no read fails. */
  function Direct(b: Backend, key: Key): Answer {
    if key.path !in b.content then NotExisting
    else if key.decode then Found(Text(b.decoder(b.content[key.path])))
    else Found(Raw(b.content[key.path]))
  }

  /** How often a read is repeated after an unexpected error. */
  datatype Config = Config(enableRetry: bool, retryCount: nat)

  function Retries(cfg: Config): nat {
    if cfg.enableRetry then cfg.retryCount else 0
  }

  datatype State = State(cache: map<Key, Data>, fetched: seq<Key>)

  /** A lookup before which the backend fails the given number of times in a row: the new state,
      the answer and the number of reads. */
  function Lookup(s: State, b: Backend, cfg: Config, key: Key, faults: nat): (State, Answer, nat) {
    if key in s.cache then (s, Found(s.cache[key]), 0)
    else if faults > Retries(cfg) then (s, Failed, Retries(cfg) + 1)
    else
      match Direct(b, key)
      case Found(data) => (State(s.cache[key := data], s.fetched + [key]), Found(data), faults + 1)
      case _ => (s, NotExisting, faults + 1)
  }

  const LOADED := State(map[], [])

  class MetadataService {
    var backend: Backend
    const cfg: Config
    var cache: map<Key, Data>
    var fetched: seq<Key>

    constructor (backend: Backend, cfg: Config)
      ensures this.backend == backend && this.cfg == cfg && Now() == LOADED
    {
      this.backend, this.cfg, cache, fetched := backend, cfg, map[], [];
    }

    function Now(): State
      reads this
    {
      State(cache, fetched)
    }

    /** A load, before which the metadata may change, forgets the cache; `fetched` counts from it. */
    method Load(backend: Backend)
      modifies this
      ensures this.backend == backend && Now() == LOADED
    {
      this.backend, cache, fetched := backend, map[], [];
    }

    /** `_exec_with_retry` on a read of the path; None is for the not-existing exception. */
    method ExecWithRetry(path: string, faults: nat) returns (ok: bool, content: Option<Bytes>, count: nat)
      ensures ok <==> faults <= Retries(cfg)
      ensures count == Min(faults, Retries(cfg)) + 1
      ensures ok ==> content == if path in backend.content then Some(backend.content[path]) else None
    {
      var i := 0;
      count := 0;
      while true
        invariant i == count <= faults && (i > 0 ==> cfg.enableRetry && i <= cfg.retryCount)
        decreases faults - i
      {
        count := count + 1;
        if count > faults {
          return true, if path in backend.content then Some(backend.content[path]) else None, count;
        }
        if cfg.enableRetry && i < cfg.retryCount {
          i := i + 1;
        } else {
          return false, None, count;
        }
      }
    }

    method GetCacheData(path: string, decode: bool, faults: nat) returns (answer: Answer, count: nat)
      modifies this
      ensures backend == old(backend)
      ensures (Now(), answer, count) == Lookup(old(Now()), backend, cfg, Key(path, decode), faults)
    {
      var key := Key(path, decode);
      if key in cache {
        return Found(cache[key]), 0;
      }
      var ok, content;
      ok, content, count := ExecWithRetry(path, faults);
      if !ok {
        return Failed, count;
      }
      if content.None? {
        return NotExisting, count;
      }
      var data := if decode then Text(backend.decoder(content.value)) else Raw(content.value);
      cache, fetched := cache[key := data], fetched + [key];
      return Found(data), count;
    }
  }

  /* ---------- Many lookups between two loads ---------- */

  datatype Query = Query(key: Key, faults: nat)

  datatype Session = Session(state: State, answers: seq<Answer>, readCounts: seq<nat>)

  function Lookups(s: State, b: Backend, cfg: Config, queries: seq<Query>): Session
    decreases |queries|
  {
    if queries == [] then Session(s, [], [])
    else
      var r := Lookup(s, b, cfg, queries[0].key, queries[0].faults);
      var rest := Lookups(r.0, b, cfg, queries[1..]);
      Session(rest.state, [r.1] + rest.answers, [r.2] + rest.readCounts)
  }

  /** The cache holds what the backend would answer, and each of its keys was fetched once. */
  ghost predicate Agrees(s: State, b: Backend) {
    && (forall k :: k in s.cache ==> Direct(b, k) == Found(s.cache[k]))
    && (forall k :: k in s.fetched <==> k in s.cache)
    && (forall i, j :: 0 <= i < j < |s.fetched| ==> s.fetched[i] != s.fetched[j])
  }

  lemma {:induction false} LookupAgrees(s: State, b: Backend, cfg: Config, key: Key, faults: nat)
    requires Agrees(s, b)
    ensures Agrees(Lookup(s, b, cfg, key, faults).0, b)
    ensures !Lookup(s, b, cfg, key, faults).1.Found? ==> Lookup(s, b, cfg, key, faults).0 == s
  {
    var r := Lookup(s, b, cfg, key, faults).0;
    if r != s {
      assert r.fetched == s.fetched + [key];
      forall k
        ensures k in r.fetched <==> k in r.cache
      {
        assert k in r.fetched <==> k in s.fetched || k == key;
      }
    }
  }

  /** One answer: what the backend says, or an error after all retries. */
  ghost predicate Answered(b: Backend, cfg: Config, q: Query, answer: Answer, count: nat) {
    && (answer == Direct(b, q.key) || (answer == Failed && count == Retries(cfg) + 1))
    && count <= Retries(cfg) + 1
    && (answer == NotExisting ==> count == q.faults + 1)
    && (q.faults <= Retries(cfg) ==> answer != Failed)
  }

  lemma {:induction false} LookupAnswers(s: State, b: Backend, cfg: Config, q: Query)
    requires Agrees(s, b)
    ensures
      var r := Lookup(s, b, cfg, q.key, q.faults);
      Answered(b, cfg, q, r.1, r.2)
  {
  }

  /** Whatever reads fail: every answer but an error is what the backend says, an error comes only
      after all retries of a key that is not cached, and no key is fetched twice. */
  lemma {:induction false} LookupsAgree(s: State, b: Backend, cfg: Config, queries: seq<Query>, i: nat)
    requires Agrees(s, b) && i < |queries|
    ensures
      var r := Lookups(s, b, cfg, queries);
      && Agrees(r.state, b) && |r.answers| == |r.readCounts| == |queries|
      && Answered(b, cfg, queries[i], r.answers[i], r.readCounts[i])
    decreases |queries|
  {
    LookupAgrees(s, b, cfg, queries[0].key, queries[0].faults);
    LookupAnswers(s, b, cfg, queries[0]);
    var s' := Lookup(s, b, cfg, queries[0].key, queries[0].faults).0;
    if i > 0 {
      LookupsAgree(s', b, cfg, queries[1..], i - 1);
    } else if |queries| > 1 {
      LookupsAgree(s', b, cfg, queries[1..], 0);
    }
  }

  /** A key that was answered is not read again: of two lookups of one key, with any lookups between
      them, the second reads nothing and answers the same as the first, unless that found nothing. */
  lemma {:induction false} FetchedOnce(s: State, b: Backend, cfg: Config, queries: seq<Query>, i: nat, j: nat)
    requires i < j < |queries| && queries[i].key == queries[j].key
    ensures
      var r := Lookups(s, b, cfg, queries);
      |r.answers| == |r.readCounts| == |queries|
      && (r.answers[i].Found? ==> r.answers[j] == r.answers[i] && r.readCounts[j] == 0)
    decreases |queries|
  {
    var q := queries[0];
    var s' := Lookup(s, b, cfg, q.key, q.faults).0;
    LookupsLength(s', b, cfg, queries[1..]);
    if i > 0 {
      FetchedOnce(s', b, cfg, queries[1..], i - 1, j - 1);
    } else if Lookup(s, b, cfg, q.key, q.faults).1.Found? {
      AnswersAreStable(s', b, cfg, queries[1..], j - 1);
    }
  }

  /** And it is there to be answered: the first lookup of a key that exists, with no more faults than
      retries, finds it. */
  lemma {:induction false} ExistingIsFound(s: State, b: Backend, cfg: Config, q: Query)
    requires Agrees(s, b) && q.faults <= (if cfg.enableRetry then cfg.retryCount else 0)
    ensures Lookup(s, b, cfg, q.key, q.faults).1.Found? <==> q.key.path in b.content
  {
  }

  /** After a load every answer but an error is what the new backend says, whatever was answered
      before it; without the load a key already answered keeps its old answer. */
  lemma {:induction false} LoadRefreshes(
    s: State, before: Backend, after: Backend, cfg: Config, queries: seq<Query>, i: nat)
    requires Agrees(s, before) && i < |queries|
    ensures
      var answers := Lookups(LOADED, after, cfg, queries).answers;
      i < |answers| && (answers[i] == Direct(after, queries[i].key) || answers[i] == Failed)
    ensures
      var answers := Lookups(s, after, cfg, queries).answers;
      queries[i].key in s.cache ==> i < |answers| && answers[i] == Direct(before, queries[i].key)
  {
    LookupsAgree(LOADED, after, cfg, queries, i);
    if queries[i].key in s.cache {
      AnswersAreStable(s, after, cfg, queries, i);
    }
  }

  /** Once answered, a key is answered without reads, and the same. */
  lemma {:induction false} AnswersAreStable(s: State, b: Backend, cfg: Config, queries: seq<Query>, i: nat)
    requires i < |queries| && queries[i].key in s.cache
    ensures
      var r := Lookups(s, b, cfg, queries);
      |r.answers| == |r.readCounts| == |queries| && r.answers[i] == Found(s.cache[queries[i].key]) && r.readCounts[i] == 0
    decreases |queries|
  {
    var s' := Lookup(s, b, cfg, queries[0].key, queries[0].faults).0;
    if i > 0 {
      AnswersAreStable(s', b, cfg, queries[1..], i - 1);
    } else {
      LookupsLength(s', b, cfg, queries[1..]);
    }
  }

  lemma {:induction false} LookupsLength(s: State, b: Backend, cfg: Config, queries: seq<Query>)
    ensures var r := Lookups(s, b, cfg, queries); |r.answers| == |r.readCounts| == |queries|
    decreases |queries|
  {
    if queries != [] {
      LookupsLength(Lookup(s, b, cfg, queries[0].key, queries[0].faults).0, b, cfg, queries[1..]);
    }
  }
}

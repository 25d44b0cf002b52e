/** The Helm upload handler: a batch of uploaded payloads is ingested one by one,
    in submission order, into an insertion-ordered response map, and the first
    failure ends the whole upload. */
module UploadHandler {
  import opened Helm
  import opened LinkedMaps
  import opened ContentFacet
  import opened UploadSupport

  /** Where a batch ends up: the state reached, and the error that stopped it, if any. */
  datatype Run = Run(state: Batch, error: Option<UploadError>)

  /** getResponseContents: Ingest over the payloads in order, stopping at the first
      failure with the state reached before it. */
  function IngestAll(c: Collaborators, rewrite: Bytes -> Bytes, repositoryName: string, b: Batch, ps: seq<PartPayload>)
    : (r: Run)
    requires b.response.Valid()
    ensures r.state.response.Valid()
    decreases |ps|
  {
    if ps == [] then Run(b, None)
    else
      var prior := IngestAll(c, rewrite, repositoryName, b, ps[..|ps| - 1]);
      if prior.error.Some? then prior
      else
        match Ingest(c, rewrite, repositoryName, prior.state, ps[|ps| - 1])
        case Failure(e) => Run(prior.state, Some(e))
        case Success(next) => Run(next, None)
  }

  /** Every payload passes its checks. */
  ghost predicate AllAccepted(c: Collaborators, repositoryName: string, ps: seq<PartPayload>) {
    forall i :: 0 <= i < |ps| ==> Validate(c, repositoryName, ps[i]).Success?
  }

  /** The paths the payloads derive, in submission order. */
  ghost function Paths(c: Collaborators, repositoryName: string, ps: seq<PartPayload>): (r: seq<string>)
    requires AllAccepted(c, repositoryName, ps)
    ensures |r| == |ps|
    ensures forall i :: 0 <= i < |ps| ==> r[i] == Validate(c, repositoryName, ps[i]).value.path
  {
    seq(|ps|, i requires 0 <= i < |ps| => Validate(c, repositoryName, ps[i]).value.path)
  }

  /** Once a prefix of the batch has failed, the rest of the batch is never processed. */
  lemma {:induction false} FailureIsFinal(c: Collaborators, rewrite: Bytes -> Bytes, repositoryName: string,
                                          b: Batch, ps: seq<PartPayload>, k: nat)
    requires b.response.Valid()
    requires k <= |ps|
    requires IngestAll(c, rewrite, repositoryName, b, ps[..k]).error.Some?
    ensures IngestAll(c, rewrite, repositoryName, b, ps) == IngestAll(c, rewrite, repositoryName, b, ps[..k])
    decreases |ps| - k
  {
    if k == |ps| {
      assert ps[..k] == ps;
    } else {
      var init := ps[..|ps| - 1];
      assert init[..k] == ps[..k];
      FailureIsFinal(c, rewrite, repositoryName, b, init, k);
    }
  }

  /** A batch succeeds exactly when every payload passes its checks. */
  lemma {:induction false} RunSucceedsIffAllAccepted(c: Collaborators, rewrite: Bytes -> Bytes, repositoryName: string,
                                                     b: Batch, ps: seq<PartPayload>)
    requires b.response.Valid()
    ensures IngestAll(c, rewrite, repositoryName, b, ps).error.None? <==> AllAccepted(c, repositoryName, ps)
    decreases |ps|
  {
    if ps != [] {
      var init := ps[..|ps| - 1];
      RunSucceedsIffAllAccepted(c, rewrite, repositoryName, b, init);
      AcceptedSnoc(c, repositoryName, ps);
      var prior := IngestAll(c, rewrite, repositoryName, b, init);
      if prior.error.Some? {
        FailurePropagates(c, rewrite, repositoryName, b, ps);
      } else if Validate(c, repositoryName, ps[|ps| - 1]).Success? {
        IngestAllAccepted(c, rewrite, repositoryName, b, ps);
      } else {
        IngestAllRejected(c, rewrite, repositoryName, b, ps);
      }
    }
  }

  /** The position of the first payload that does not pass its checks, or the
      batch's length when all of them do. */
  function FirstRejected(c: Collaborators, repositoryName: string, ps: seq<PartPayload>): (j: nat)
    ensures j <= |ps|
    ensures forall i :: 0 <= i < j ==> Validate(c, repositoryName, ps[i]).Success?
    ensures j < |ps| ==> Validate(c, repositoryName, ps[j]).Failure?
    decreases |ps|
  {
    if ps == [] then 0
    else
      var init := ps[..|ps| - 1];
      var k := FirstRejected(c, repositoryName, init);
      if k < |init| then k
      else if Validate(c, repositoryName, ps[|ps| - 1]).Failure? then |ps| - 1
      else |ps|
  }

  /** A batch stops at its first rejected payload: it succeeds exactly when there is
      none; otherwise it fails with that payload's error, in the state the payloads
      before it left. */
  ghost predicate StopsAtFirstRejection(c: Collaborators, rewrite: Bytes -> Bytes, repositoryName: string,
                                        b: Batch, ps: seq<PartPayload>)
    requires b.response.Valid()
  {
    var r := IngestAll(c, rewrite, repositoryName, b, ps);
    var j := FirstRejected(c, repositoryName, ps);
    && (r.error.None? <==> j == |ps|)
    && (r.error.Some? ==>
          && Validate(c, repositoryName, ps[j]) == Failure(r.error.value)
          && IngestAll(c, rewrite, repositoryName, b, ps[..j]) == Run(r.state, None))
  }

  /** When a batch fails, it fails with the error of the first payload that does
      not pass its checks, and the state is what the payloads before it left (their
      stores remain): no later payload was processed. */
  lemma {:induction false} RunStopsAtFirstRejection(c: Collaborators, rewrite: Bytes -> Bytes, repositoryName: string,
                                                    b: Batch, ps: seq<PartPayload>)
    requires b.response.Valid()
    ensures StopsAtFirstRejection(c, rewrite, repositoryName, b, ps)
    decreases |ps|
  {
    if ps != [] {
      var init := ps[..|ps| - 1];
      RunStopsAtFirstRejection(c, rewrite, repositoryName, b, init);
      var prior := IngestAll(c, rewrite, repositoryName, b, init);
      if prior.error.Some? {
        StopsAfterFailedPrefix(c, rewrite, repositoryName, b, ps);
      } else {
        StopsAfterAcceptedPrefix(c, rewrite, repositoryName, b, ps);
      }
    }
  }

  /** The step of RunStopsAtFirstRejection when the prefix has failed already. */
  lemma StopsAfterFailedPrefix(c: Collaborators, rewrite: Bytes -> Bytes, repositoryName: string,
                               b: Batch, ps: seq<PartPayload>)
    requires b.response.Valid() && ps != []
    requires StopsAtFirstRejection(c, rewrite, repositoryName, b, ps[..|ps| - 1])
    requires IngestAll(c, rewrite, repositoryName, b, ps[..|ps| - 1]).error.Some?
    ensures StopsAtFirstRejection(c, rewrite, repositoryName, b, ps)
  {
    var init := ps[..|ps| - 1];
    var k := FirstRejected(c, repositoryName, init);
    FailurePropagates(c, rewrite, repositoryName, b, ps);
    assert FirstRejected(c, repositoryName, ps) == k;
    assert init[..k] == ps[..k];
    assert init[k] == ps[k];
  }

  /** The step of RunStopsAtFirstRejection when the prefix was accepted. */
  lemma StopsAfterAcceptedPrefix(c: Collaborators, rewrite: Bytes -> Bytes, repositoryName: string,
                                 b: Batch, ps: seq<PartPayload>)
    requires b.response.Valid() && ps != []
    requires StopsAtFirstRejection(c, rewrite, repositoryName, b, ps[..|ps| - 1])
    requires IngestAll(c, rewrite, repositoryName, b, ps[..|ps| - 1]).error.None?
    ensures StopsAtFirstRejection(c, rewrite, repositoryName, b, ps)
  {
    var n := |ps|;
    assert FirstRejected(c, repositoryName, ps[..n - 1]) == n - 1;
    if Validate(c, repositoryName, ps[n - 1]).Success? {
      IngestAllAccepted(c, rewrite, repositoryName, b, ps);
      assert FirstRejected(c, repositoryName, ps) == n;
    } else {
      IngestAllRejected(c, rewrite, repositoryName, b, ps);
      assert FirstRejected(c, repositoryName, ps) == n - 1;
    }
  }

  /** A batch is accepted exactly when all but its last payload are and the last is. */
  lemma AcceptedSnoc(c: Collaborators, repositoryName: string, ps: seq<PartPayload>)
    requires ps != []
    ensures AllAccepted(c, repositoryName, ps)
            <==> AllAccepted(c, repositoryName, ps[..|ps| - 1]) && Validate(c, repositoryName, ps[|ps| - 1]).Success?
  {
    var init := ps[..|ps| - 1];
    if AllAccepted(c, repositoryName, init) && Validate(c, repositoryName, ps[|ps| - 1]).Success? {
      forall i | 0 <= i < |ps|
        ensures Validate(c, repositoryName, ps[i]).Success?
      {
        if i < |ps| - 1 {
          assert ps[i] == init[i];
        }
      }
    }
    if AllAccepted(c, repositoryName, ps) {
      AcceptedPrefix(c, repositoryName, ps, |ps| - 1);
    }
  }

  /** A failed prefix is the outcome of the whole batch one payload longer. */
  lemma FailurePropagates(c: Collaborators, rewrite: Bytes -> Bytes, repositoryName: string, b: Batch, ps: seq<PartPayload>)
    requires b.response.Valid()
    requires ps != []
    requires IngestAll(c, rewrite, repositoryName, b, ps[..|ps| - 1]).error.Some?
    ensures IngestAll(c, rewrite, repositoryName, b, ps) == IngestAll(c, rewrite, repositoryName, b, ps[..|ps| - 1])
  {
  }

  /** A rejected payload after an unfailed prefix fails the batch with its error and
      the prefix's state. */
  lemma IngestAllRejected(c: Collaborators, rewrite: Bytes -> Bytes, repositoryName: string, b: Batch, ps: seq<PartPayload>)
    requires b.response.Valid()
    requires ps != []
    requires IngestAll(c, rewrite, repositoryName, b, ps[..|ps| - 1]).error.None?
    requires Validate(c, repositoryName, ps[|ps| - 1]).Failure?
    ensures IngestAll(c, rewrite, repositoryName, b, ps)
            == Run(IngestAll(c, rewrite, repositoryName, b, ps[..|ps| - 1]).state,
                   Some(Validate(c, repositoryName, ps[|ps| - 1]).error))
  {
  }

  /** A successful batch calls putIndex once per payload, in submission order, and
      its response keys are the derived paths in first-insertion order, so a
      repeated path keeps the position it was first inserted at. */
  lemma {:induction false} RunKeysInSubmissionOrder(c: Collaborators, rewrite: Bytes -> Bytes, repositoryName: string,
                                                    b: Batch, ps: seq<PartPayload>)
    requires b.response.Valid()
    requires AllAccepted(c, repositoryName, ps)
    ensures var r := IngestAll(c, rewrite, repositoryName, b, ps);
            var paths := Paths(c, repositoryName, ps);
            && r.error.None?
            && r.state.indexed == b.indexed + paths
            && r.state.response.keys == FirstOccurrences(b.response.keys + paths)
    decreases |ps|
  {
    if ps == [] {
      FirstOccurrencesOfDistinct(b.response.keys);
      assert b.response.keys + [] == b.response.keys;
      assert b.indexed + [] == b.indexed;
    } else {
      var init := ps[..|ps| - 1];
      PathsSnoc(c, repositoryName, ps);
      RunKeysInSubmissionOrder(c, rewrite, repositoryName, b, init);
      IngestAllAccepted(c, rewrite, repositoryName, b, ps);
      var prior := IngestAll(c, rewrite, repositoryName, b, init).state;
      var next := IngestAll(c, rewrite, repositoryName, b, ps).state;
      var path := Validate(c, repositoryName, ps[|ps| - 1]).value.path;
      var initPaths := Paths(c, repositoryName, init);
      KeysStep(prior.response, b.response.keys, initPaths, path, Download(path, next.assets[path]));
      assert b.indexed + initPaths + [path] == b.indexed + (initPaths + [path]);
    }
  }

  /** A prefix of an accepted batch is accepted, and derives the prefix of its paths. */
  lemma AcceptedPrefix(c: Collaborators, repositoryName: string, ps: seq<PartPayload>, k: nat)
    requires k <= |ps|
    requires AllAccepted(c, repositoryName, ps)
    ensures AllAccepted(c, repositoryName, ps[..k])
    ensures Paths(c, repositoryName, ps[..k]) == Paths(c, repositoryName, ps)[..k]
  {
    forall i | 0 <= i < k
      ensures Validate(c, repositoryName, ps[..k][i]).Success?
    {
      assert ps[..k][i] == ps[i];
    }
  }

  /** One more accepted payload after an unfailed prefix: the batch goes on, with
      that payload stored with putIndex at its derived path and put in the response. */
  lemma IngestAllAccepted(c: Collaborators, rewrite: Bytes -> Bytes, repositoryName: string, b: Batch, ps: seq<PartPayload>)
    requires b.response.Valid()
    requires ps != []
    requires IngestAll(c, rewrite, repositoryName, b, ps[..|ps| - 1]).error.None?
    requires Validate(c, repositoryName, ps[|ps| - 1]).Success?
    ensures var prior := IngestAll(c, rewrite, repositoryName, b, ps[..|ps| - 1]).state;
            var r := IngestAll(c, rewrite, repositoryName, b, ps);
            var v := Validate(c, repositoryName, ps[|ps| - 1]).value;
            && r.error.None?
            && r.state.assets == Attach(prior.assets, v.path, v.kind.Name(), None, rewrite(ps[|ps| - 1].bytes))
            && r.state.response == prior.response.Put(v.path, Download(v.path, r.state.assets[v.path]))
            && r.state.indexed == prior.indexed + [v.path]
  {
  }

  /** The paths of an accepted batch are those of all but its last payload, then
      the last one's. */
  lemma PathsSnoc(c: Collaborators, repositoryName: string, ps: seq<PartPayload>)
    requires ps != []
    requires AllAccepted(c, repositoryName, ps)
    ensures AllAccepted(c, repositoryName, ps[..|ps| - 1])
    ensures Paths(c, repositoryName, ps)
            == Paths(c, repositoryName, ps[..|ps| - 1]) + [Validate(c, repositoryName, ps[|ps| - 1]).value.path]
  {
    AcceptedPrefix(c, repositoryName, ps, |ps| - 1);
  }

  /** The response keys after one more accepted payload are still the first
      occurrences of the paths so far. */
  lemma KeysStep(m: OrderedMap<string, Content>, keys: seq<string>, paths: seq<string>, path: string, content: Content)
    requires m.Valid() && m.keys == FirstOccurrences(keys + paths)
    ensures m.Put(path, content).keys == FirstOccurrences(keys + (paths + [path]))
  {
    PutKeepsFirstOccurrences(m, keys + paths, path, content);
    assert keys + paths + [path] == keys + (paths + [path]);
  }

  /** A successful batch gains no more keys than it has payloads, and every key it
      gains is a path some payload derived. */
  lemma RunKeysAreDerivedPaths(c: Collaborators, rewrite: Bytes -> Bytes, repositoryName: string,
                               b: Batch, ps: seq<PartPayload>)
    requires b.response.Valid()
    requires AllAccepted(c, repositoryName, ps)
    ensures var r := IngestAll(c, rewrite, repositoryName, b, ps);
            var paths := Paths(c, repositoryName, ps);
            && |r.state.response.keys| <= |b.response.keys| + |ps|
            && (forall k :: k in r.state.response.values <==> k in b.response.values || k in paths)
  {
    var r := IngestAll(c, rewrite, repositoryName, b, ps);
    var paths := Paths(c, repositoryName, ps);
    RunKeysInSubmissionOrder(c, rewrite, repositoryName, b, ps);
    forall k
      ensures k in r.state.response.values <==> k in b.response.values || k in paths
    {
      assert k in b.response.keys + paths <==> k in b.response.keys || k in paths;
    }
  }

  /** For each path, the asset and the response hold the rewritten blob of the last
      payload that derived it. */
  ghost predicate LatestBlobs(rewrite: Bytes -> Bytes, r: Batch, ps: seq<PartPayload>, paths: seq<string>)
    requires |paths| == |ps|
  {
    forall j :: 0 <= j < |ps| && paths[j] !in paths[j + 1..] ==>
      && paths[j] in r.response.values && paths[j] in r.assets
      && r.response.values[paths[j]].blob == rewrite(ps[j].bytes)
      && r.assets[paths[j]].blob == rewrite(ps[j].bytes)
  }

  /** Every path none of the payloads derived is left as it was in b. */
  ghost predicate Untouched(b: Batch, assets: AssetTable, paths: seq<string>) {
    forall p :: p !in paths ==>
      && (p in assets <==> p in b.assets)
      && (p in b.assets ==> assets[p] == b.assets[p])
  }

  /** What a successful run from b to r did with the payloads ps, whose derived
      paths are paths: every response entry is the current download of its asset;
      for each path the last write wins; other paths are left as they were. */
  ghost predicate LastWritten(rewrite: Bytes -> Bytes, b: Batch, r: Batch, ps: seq<PartPayload>, paths: seq<string>)
    requires |paths| == |ps|
  {
    Consistent(r) && LatestBlobs(rewrite, r, ps, paths) && Untouched(b, r.assets, paths)
  }

  /** In a successful batch a later payload with the same path replaces the earlier
      one's content (see LastWritten). */
  lemma {:induction false} RunLastWriteWins(c: Collaborators, rewrite: Bytes -> Bytes, repositoryName: string,
                                            b: Batch, ps: seq<PartPayload>)
    requires Consistent(b)
    requires AllAccepted(c, repositoryName, ps)
    ensures LastWritten(rewrite, b, IngestAll(c, rewrite, repositoryName, b, ps).state, ps, Paths(c, repositoryName, ps))
    decreases |ps|
  {
    if ps != [] {
      var n := |ps|;
      var init := ps[..n - 1];
      PathsSnoc(c, repositoryName, ps);
      RunLastWriteWins(c, rewrite, repositoryName, b, init);
      RunKeysInSubmissionOrder(c, rewrite, repositoryName, b, init);
      IngestAllAccepted(c, rewrite, repositoryName, b, ps);
      var prior := IngestAll(c, rewrite, repositoryName, b, init).state;
      var next := IngestAll(c, rewrite, repositoryName, b, ps).state;
      var v := Validate(c, repositoryName, ps[n - 1]).value;
      LastWriteStep(rewrite, b, prior, next, ps, Paths(c, repositoryName, ps), v.kind.Name());
    }
  }

  /** The inductive step of RunLastWriteWins: storing the last payload's rewritten
      blob at its path keeps what LastWritten says, now for the whole batch. */
  lemma LastWriteStep(rewrite: Bytes -> Bytes, b: Batch, prior: Batch, next: Batch,
                      ps: seq<PartPayload>, paths: seq<string>, kind: string)
    requires ps != [] && |paths| == |ps|
    requires LastWritten(rewrite, b, prior, ps[..|ps| - 1], paths[..|ps| - 1])
    requires next.assets == Attach(prior.assets, paths[|ps| - 1], kind, None, rewrite(ps[|ps| - 1].bytes))
    requires next.response
             == prior.response.Put(paths[|ps| - 1], Download(paths[|ps| - 1], next.assets[paths[|ps| - 1]]))
    ensures LastWritten(rewrite, b, next, ps, paths)
  {
    ConsistentStep(prior, next, paths[|ps| - 1], kind, rewrite(ps[|ps| - 1].bytes));
    LatestBlobStep(rewrite, prior, next, ps, paths, kind);
    UntouchedStep(b, prior.assets, next.assets, paths, kind, rewrite(ps[|ps| - 1].bytes));
  }

  /** Attaching a blob and putting its download in the response keeps every
      response entry the current download of its asset. */
  lemma ConsistentStep(prior: Batch, next: Batch, path: string, kind: string, blob: Bytes)
    requires Consistent(prior)
    requires next.assets == Attach(prior.assets, path, kind, None, blob)
    requires next.response == prior.response.Put(path, Download(path, next.assets[path]))
    ensures Consistent(next)
  {
    forall k | k in next.response.values
      ensures k in next.assets && next.response.values[k] == Download(k, next.assets[k])
    {
    }
  }

  /** The blob of the last payload to derive a path is the one held at that path. */
  lemma LatestBlobStep(rewrite: Bytes -> Bytes, prior: Batch, next: Batch,
                       ps: seq<PartPayload>, paths: seq<string>, kind: string)
    requires ps != [] && |paths| == |ps|
    requires prior.response.Valid()
    requires LatestBlobs(rewrite, prior, ps[..|ps| - 1], paths[..|ps| - 1])
    requires next.assets == Attach(prior.assets, paths[|ps| - 1], kind, None, rewrite(ps[|ps| - 1].bytes))
    requires next.response
             == prior.response.Put(paths[|ps| - 1], Download(paths[|ps| - 1], next.assets[paths[|ps| - 1]]))
    ensures LatestBlobs(rewrite, next, ps, paths)
  {
    var n := |ps|;
    var path := paths[n - 1];
    var init := ps[..n - 1];
    var initPaths := paths[..n - 1];
    forall j | 0 <= j < n && paths[j] !in paths[j + 1..]
      ensures && paths[j] in next.response.values && paths[j] in next.assets
              && next.response.values[paths[j]].blob == rewrite(ps[j].bytes)
              && next.assets[paths[j]].blob == rewrite(ps[j].bytes)
    {
      if j < n - 1 {
        assert path == paths[j + 1..][n - 2 - j];
        assert initPaths[j + 1..] == paths[j + 1..n - 1];
        assert initPaths[j] !in initPaths[j + 1..];
        assert init[j] == ps[j];
      }
    }
  }

  /** A path none of the payloads derived is left as it was. */
  lemma UntouchedStep(b: Batch, prior: AssetTable, next: AssetTable, paths: seq<string>, kind: string, blob: Bytes)
    requires paths != []
    requires Untouched(b, prior, paths[..|paths| - 1])
    requires next == Attach(prior, paths[|paths| - 1], kind, None, blob)
    ensures Untouched(b, next, paths)
  {
    forall q | q !in paths
      ensures && (q in next <==> q in b.assets)
              && (q in b.assets ==> next[q] == b.assets[q])
    {
      assert q != paths[|paths| - 1];
      assert q !in paths[..|paths| - 1];
    }
  }

  /** Insertion order is submission order: when a batch into an empty response
      succeeds, a path first derived by an earlier payload comes before one first
      derived by a later payload. */
  lemma SubmissionOrderKept(c: Collaborators, rewrite: Bytes -> Bytes, repositoryName: string,
                            b: Batch, ps: seq<PartPayload>, i: nat, j: nat)
    requires b.response == OrderedMap([], map[])
    requires AllAccepted(c, repositoryName, ps)
    requires i < j < |ps|
    requires Paths(c, repositoryName, ps)[j] !in Paths(c, repositoryName, ps)[..j]
    ensures var keys := IngestAll(c, rewrite, repositoryName, b, ps).state.response.keys;
            exists x, y :: 0 <= x < y < |keys|
                           && keys[x] == Validate(c, repositoryName, ps[i]).value.path
                           && keys[y] == Validate(c, repositoryName, ps[j]).value.path
  {
    RunKeysFromEmpty(c, rewrite, repositoryName, b, ps);
    FirstOccurrencesKeepsOrder(Paths(c, repositoryName, ps), i, j);
  }

  /** From an empty response, the keys are the first occurrences of the paths. */
  lemma RunKeysFromEmpty(c: Collaborators, rewrite: Bytes -> Bytes, repositoryName: string,
                         b: Batch, ps: seq<PartPayload>)
    requires b.response == OrderedMap([], map[])
    requires AllAccepted(c, repositoryName, ps)
    ensures IngestAll(c, rewrite, repositoryName, b, ps).state.response.keys == FirstOccurrences(Paths(c, repositoryName, ps))
  {
    RunKeysInSubmissionOrder(c, rewrite, repositoryName, b, ps);
    assert b.response.keys + Paths(c, repositoryName, ps) == Paths(c, repositoryName, ps);
  }

  /** The upload handler of the Helm format. */
  class HelmUploadHandler {
    const collaborators: Collaborators
    /** The upload definition, computed on first request. */
    var definition: Option<UploadDefinition>
    /** How many times the definition has been computed. */
    ghost var definitionsComputed: nat

    ghost predicate Valid()
      reads this
    {
      definitionsComputed == if definition.Some? then 1 else 0
    }

    constructor (collaborators: Collaborators)
      ensures this.collaborators == collaborators
      ensures definition == None && Valid()
    {
      this.collaborators := collaborators;
      definition := None;
      definitionsComputed := 0;
    }

    /** getDefinition: computed on the first call only; every later call returns the
        same value. */
    method GetDefinition() returns (d: UploadDefinition)
      requires Valid()
      modifies this`definition, this`definitionsComputed
      ensures Valid() && definition == Some(d) && definitionsComputed == 1
      ensures old(definition).Some? ==> d == old(definition).value && definitionsComputed == old(definitionsComputed)
      ensures old(definition).None? ==> d == UploadDefinition(FormatName, false)
    {
      if definition.None? {
        definition := Some(UploadDefinition(FormatName, false));
        definitionsComputed := definitionsComputed + 1;
      }
      d := definition.value;
    }

    /** processPayload: a payload rejected by any check leaves the store and the
        response map untouched; an accepted one is stored with putIndex at its derived
        path and the response gains, or overwrites, exactly that path's entry. */
    method ProcessPayload(repository: Repository, response: LinkedMap<string, Content>, payload: PartPayload)
      returns (error: Option<UploadError>)
      requires response.Valid()
      modifies repository.facet, response
      ensures response.Valid()
      ensures repository.facet.components == old(repository.facet.components)
      ensures var before := Batch(old(repository.facet.assets), old(response.Model()), old(repository.facet.indexed));
              match Ingest(collaborators, repository.facet.rewrite, repository.name, before, payload)
              case Failure(e) =>
                && error == Some(e)
                && repository.facet.assets == before.assets
                && repository.facet.indexed == before.indexed
                && response.Model() == before.response
              case Success(after) =>
                && error.None?
                && repository.facet.assets == after.assets
                && repository.facet.indexed == after.indexed
                && response.Model() == after.response
    {
      var fileName := FileNameOf(payload);
      var kind := collaborators.classify(fileName);
      if kind != HelmProvenance && kind != HelmPackage {
        return Some(UnsupportedExtension);
      }
      var attrs := collaborators.parse(kind, payload.bytes);
      var extension := collaborators.extension(kind);
      if IsBlank(attrs.name) {
        return Some(MissingName);
      }
      if IsBlank(attrs.version) {
        return Some(MissingVersion);
      }
      var path := DerivePath(attrs.name.value, attrs.version.value, extension);
      if !collaborators.permitted(repository.name, FormatName, path) {
        return Some(PermissionDenied(path));
      }
      var content := repository.facet.PutIndex(path, payload.bytes, kind);
      response.Put(path, content);
      return None;
    }

    /** getResponseContents: a fresh insertion-ordered map, filled by processing the
        payloads in order; the first failure fails the whole call. */
    method GetResponseContents(repository: Repository, payloads: seq<PartPayload>)
      returns (r: Result<LinkedMap<string, Content>, UploadError>)
      modifies repository.facet
      ensures repository.facet.components == old(repository.facet.components)
      ensures var run := IngestAll(collaborators, repository.facet.rewrite, repository.name,
                                   Batch(old(repository.facet.assets), OrderedMap([], map[]), old(repository.facet.indexed)),
                                   payloads);
              && repository.facet.assets == run.state.assets
              && repository.facet.indexed == run.state.indexed
              && (run.error.Some? ==> r == Failure(run.error.value))
              && (run.error.None? ==> r.Success? && fresh(r.value) && r.value.Valid() && r.value.Model() == run.state.response)
    {
      var facet := repository.facet;
      var response := new LinkedMap<string, Content>();
      ghost var start := Batch(facet.assets, response.Model(), facet.indexed);
      var i := 0;
      while i < |payloads|
        invariant 0 <= i <= |payloads|
        invariant fresh(response) && response.Valid()
        invariant facet.components == old(facet.components)
        invariant IngestAll(collaborators, facet.rewrite, repository.name, start, payloads[..i])
                  == Run(Batch(facet.assets, response.Model(), facet.indexed), None)
      {
        var error := ProcessPayload(repository, response, payloads[i]);
        assert payloads[..i + 1][..i] == payloads[..i];
        if error.Some? {
          FailureIsFinal(collaborators, facet.rewrite, repository.name, start, payloads, i + 1);
          return Failure(error.value);
        }
        i := i + 1;
      }
      assert payloads[..i] == payloads;
      return Success(response);
    }

    /** handle(repository, upload): the asset uploads' payloads in order are ingested,
        and the response lists the resulting paths and contents, index-aligned, in
        key order. */
    method Handle(repository: Repository, upload: ComponentUpload) returns (r: Result<UploadResponse, UploadError>)
      modifies repository.facet
      ensures repository.facet.components == old(repository.facet.components)
      ensures var run := IngestAll(collaborators, repository.facet.rewrite, repository.name,
                                   Batch(old(repository.facet.assets), OrderedMap([], map[]), old(repository.facet.indexed)),
                                   PayloadsOf(upload.assetUploads));
              && repository.facet.assets == run.state.assets
              && repository.facet.indexed == run.state.indexed
              && (run.error.Some? ==> r == Failure(run.error.value))
              && (run.error.None? ==> r == Success(ResponseOf(run.state.response)))
    {
      var pathToPayload: seq<PartPayload> := [];
      var i := 0;
      while i < |upload.assetUploads|
        invariant 0 <= i <= |upload.assetUploads|
        invariant |pathToPayload| == i
        invariant forall k :: 0 <= k < i ==> pathToPayload[k] == upload.assetUploads[k].payload
      {
        pathToPayload := pathToPayload + [upload.assetUploads[i].payload];
        i := i + 1;
      }
      assert pathToPayload == PayloadsOf(upload.assetUploads);
      var contents := GetResponseContents(repository, pathToPayload);
      match contents
      case Failure(e) =>
        r := Failure(e);
      case Success(m) =>
        r := Success(ResponseOf(m.Model()));
    }

    /** handle(repository, file, path): permission is checked on the given path first;
        then the file is stored there by doPut. */
    method HandleFile(repository: Repository, content: Bytes, path: string) returns (r: Result<Content, UploadError>)
      modifies repository.facet
      ensures repository.facet.components == old(repository.facet.components)
      ensures !collaborators.permitted(repository.name, FormatName, path) ==>
                && r == Failure(PermissionDenied(path))
                && repository.facet.assets == old(repository.facet.assets)
                && repository.facet.indexed == old(repository.facet.indexed)
      ensures collaborators.permitted(repository.name, FormatName, path) ==>
                match PlaceFile(collaborators, repository.facet.rewrite, old(repository.facet.assets), content, path)
                case Failure(e) =>
                  && r == Failure(e)
                  && repository.facet.assets == old(repository.facet.assets)
                  && repository.facet.indexed == old(repository.facet.indexed)
                case Success(placed) =>
                  && r == Success(placed.content)
                  && repository.facet.assets == placed.assets
                  && repository.facet.indexed == old(repository.facet.indexed) + [path]
    {
      if !collaborators.permitted(repository.name, FormatName, path) {
        return Failure(PermissionDenied(path));
      }
      r := DoPut(repository, content, path);
    }

    /** doPut: store the file at the path under the kind its file name classifies as. */
    method DoPut(repository: Repository, content: Bytes, path: string) returns (r: Result<Content, UploadError>)
      modifies repository.facet
      ensures repository.facet.components == old(repository.facet.components)
      ensures match PlaceFile(collaborators, repository.facet.rewrite, old(repository.facet.assets), content, path)
              case Failure(e) =>
                && r == Failure(e)
                && repository.facet.assets == old(repository.facet.assets)
                && repository.facet.indexed == old(repository.facet.indexed)
              case Success(placed) =>
                && r == Success(placed.content)
                && repository.facet.assets == placed.assets
                && repository.facet.indexed == old(repository.facet.indexed) + [path]
    {
      if !IsUnixPath(path) {
        return Failure(InvalidPath(path));
      }
      var fileName := PathFileName(path);
      if fileName.None? {
        return Failure(NoFileName(path));
      }
      var kind := collaborators.classify(fileName.value);
      var c := repository.facet.PutIndex(path, content, kind);
      return Success(c);
    }
  }
}

/** The abstract state the repositories act on: one keyed collection per entity, the set of media
    URLs still live on the media host, and the trace of external calls the client has issued.
    Every outcome the environment decides (the host's answers, the store's answers, the clock) is
    an explicit input. */
module Catalog {
  import opened Base
  import opened Http
  import opened Models
  import opened UploadImageRoute
  import opened DeleteFileRoute
  import opened MediaRepository
  import opened PublicIdPattern

  datatype Collection = Genres | Artists | Songs | Posts | Profiles

  /** An external call the client issues. */
  datatype Request =
    | UploadFileReq(fields: seq<string>, folder: Option<string>)  // POST /api/upload-image: form field names, folder text
    | DeleteFileReq(url: Url)                                     // DELETE /api/delete-file
    | DeleteImageReq(url: Url)                                    // DELETE /api/delete-image
    | AddDocReq(coll: Collection)
    | GetDocReq(coll: Collection, key: Id)
    | QueryReq(coll: Collection, field: string, value: string)
    | UpdateDocReq(coll: Collection, key: Id)
    | DeleteDocReq(coll: Collection, key: Id)

  /** One issued call: whether it succeeded for the caller, and the media-host call the route
      made while serving it. */
  datatype Call = Call(req: Request, ok: bool, host: Option<HostCall>)

  /** `live` holds the URLs of uploaded objects for which no destroy has been acknowledged. */
  datatype Db = Db(
    genres: map<Id, Genre>,
    artists: map<Id, Artist>,
    songs: map<Id, Song>,
    posts: map<Id, Post>,
    profiles: map<Id, AppUser>,
    live: set<Url>,
    trace: seq<Call>)

  /** The state after a step, and what the step returned or the request whose failure it threw. */
  datatype Step<+T> = Step(db: Db, result: Result<T, Request>)

  /** The environment's answers. */
  datatype UploadAnswer = UploadAnswer(now: Time, host: HostUploadAnswer)
  datatype InsertAnswer = Assigned(key: Id) | InsertFails
  datatype StoreAnswer = Served | StoreFails

  /** Every collection other than `c` is the same in both states. */
  ghost predicate OthersUnchanged(db0: Db, db1: Db, c: Collection) {
    && (c != Genres ==> db1.genres == db0.genres)
    && (c != Artists ==> db1.artists == db0.artists)
    && (c != Songs ==> db1.songs == db0.songs)
    && (c != Posts ==> db1.posts == db0.posts)
    && (c != Profiles ==> db1.profiles == db0.profiles)
  }

  /** No collection changed. */
  ghost predicate StoreUnchanged(db0: Db, db1: Db) {
    db1 == db0.(live := db1.live, trace := db1.trace)
  }

  /** `issued` is what running `plan` call by call issues when the run stops at the first
      failure: the step returns `result` when every call succeeded, and rethrows the failed
      request otherwise. */
  ghost predicate Runs<T>(issued: seq<Call>, plan: seq<Request>, result: Result<T, Request>)
    decreases |issued|
  {
    if |issued| == 0 then |plan| == 0 && result.Ok?
    else
      && |plan| > 0
      && issued[0].req == plan[0]
      && if issued[0].ok then Runs(issued[1..], plan[1..], result)
         else |issued| == 1 && result == Err(plan[0])
  }

  /** The calls appended to the trace between `before` and `after` are a run of `plan`. */
  ghost predicate FollowsPlan<T>(before: seq<Call>, after: seq<Call>, result: Result<T, Request>, plan: seq<Request>) {
    && |before| <= |after|
    && after[..|before|] == before
    && Runs(after[|before|..], plan, result)
  }

  /** Append one issued call to the trace. */
  function Issue(db: Db, req: Request, ok: bool, host: Option<HostCall>): (db': Db)
    ensures db'.trace == db.trace + [Call(req, ok, host)]
    ensures db' == db.(trace := db'.trace)
  {
    db.(trace := db.trace + [Call(req, ok, host)])
  }

  /** The state after a single call, with the step's result. */
  function Single<T>(db: Db, req: Request, ok: bool, host: Option<HostCall>, value: T): (s: Step<T>)
    ensures FollowsPlan(db.trace, s.db.trace, s.result, [req])
    ensures s.result.Ok? <==> ok
    ensures s.result.Ok? ==> s.result.value == value
    ensures s.db == Issue(db, req, ok, host)
  {
    var db' := Issue(db, req, ok, host);
    assert db'.trace[|db.trace|..] == [Call(req, ok, host)];
    Step(db', if ok then Ok(value) else Err(req))
  }

  // ---------------------------------------------------------------------------------------------
  // Plan composition.

  lemma NothingFollowsEmptyPlan<T>(trace: seq<Call>, value: T)
    ensures FollowsPlan(trace, trace, Ok(value), [])
  {
    assert trace[..|trace|] == trace;
  }

  /** What a run means, call by call: the issued calls are a prefix of the plan, every one but
      the last succeeded, the step succeeded exactly when the whole plan ran and succeeded, and
      otherwise it threw for the request that failed. */
  lemma {:induction false} RunsMeaning<T>(issued: seq<Call>, plan: seq<Request>, result: Result<T, Request>)
    requires Runs(issued, plan, result)
    ensures |issued| <= |plan|
    ensures forall j :: 0 <= j < |issued| ==> issued[j].req == plan[j]
    ensures forall j :: 0 <= j < |issued| - 1 ==> issued[j].ok
    ensures result.Ok? <==> |issued| == |plan| && forall j :: 0 <= j < |issued| ==> issued[j].ok
    ensures result.Err? ==> |issued| > 0 && !issued[|issued| - 1].ok && result.error == issued[|issued| - 1].req
    decreases |issued|
  {
    if |issued| > 0 && issued[0].ok {
      RunsMeaning(issued[1..], plan[1..], result);
      assert forall j :: 1 <= j < |issued| ==> issued[j] == issued[1..][j - 1];
      assert forall j :: 1 <= j < |plan| ==> plan[j] == plan[1..][j - 1];
    }
  }

  /** A successful run followed by another run is a run of the concatenated plan. */
  lemma {:induction false} RunsThen<T, U>(i1: seq<Call>, i2: seq<Call>, r1: Result<T, Request>, r2: Result<U, Request>,
                                          p1: seq<Request>, p2: seq<Request>)
    requires Runs(i1, p1, r1) && r1.Ok?
    requires Runs(i2, p2, r2)
    ensures Runs(i1 + i2, p1 + p2, r2)
    decreases |i1|
  {
    if |i1| == 0 {
      assert i1 + i2 == i2 && p1 + p2 == p2;
    } else {
      RunsThen(i1[1..], i2, r1, r2, p1[1..], p2);
      assert (i1 + i2)[1..] == i1[1..] + i2;
      assert (p1 + p2)[1..] == p1[1..] + p2;
    }
  }

  /** A failed run aborts the rest of any longer plan, rethrowing the same failure. */
  lemma {:induction false} RunsAbort<T, U>(i1: seq<Call>, r1: Result<T, Request>, r: Result<U, Request>,
                                           p1: seq<Request>, p2: seq<Request>)
    requires Runs(i1, p1, r1) && r1.Err?
    requires r == Err(r1.error)
    ensures Runs(i1, p1 + p2, r)
    decreases |i1|
  {
    assert (p1 + p2)[0] == p1[0];
    if i1[0].ok {
      RunsAbort(i1[1..], r1, r, p1[1..], p2);
      assert (p1 + p2)[1..] == p1[1..] + p2;
    }
  }

  /** A run stays a run when its success value is replaced. */
  lemma {:induction false} RunsMap<T, U>(i: seq<Call>, p: seq<Request>, r1: Result<T, Request>, r2: Result<U, Request>)
    requires Runs(i, p, r1)
    requires r1.Ok? <==> r2.Ok?
    requires r1.Err? ==> r2 == Err(r1.error)
    ensures Runs(i, p, r2)
    decreases |i|
  {
    if |i| > 0 && i[0].ok {
      RunsMap(i[1..], p[1..], r1, r2);
    }
  }

  /** A successful step followed by another step follows the concatenated plan. */
  lemma ThenFollows<T, U>(t0: seq<Call>, t1: seq<Call>, t2: seq<Call>,
                          r1: Result<T, Request>, r2: Result<U, Request>,
                          p1: seq<Request>, p2: seq<Request>)
    requires FollowsPlan(t0, t1, r1, p1) && r1.Ok?
    requires FollowsPlan(t1, t2, r2, p2)
    ensures FollowsPlan(t0, t2, r2, p1 + p2)
  {
    var i1 := t1[|t0|..];
    var i2 := t2[|t1|..];
    assert t2 == t1 + i2;
    assert t1 == t0 + i1;
    assert t2[..|t0|] == t0;
    assert t2[|t0|..] == i1 + i2;
    RunsThen(i1, i2, r1, r2, p1, p2);
  }

  /** A failed step aborts the rest of the plan: the failure is rethrown unchanged. */
  lemma AbortFollows<T, U>(t0: seq<Call>, t1: seq<Call>, r1: Result<T, Request>, r: Result<U, Request>,
                           p1: seq<Request>, p2: seq<Request>)
    requires FollowsPlan(t0, t1, r1, p1) && r1.Err?
    requires r == Err(r1.error)
    ensures FollowsPlan(t0, t1, r, p1 + p2)
  {
    RunsAbort(t1[|t0|..], r1, r, p1, p2);
  }

  /** A step whose result value is replaced keeps following its plan. */
  lemma MapFollows<T, U>(t0: seq<Call>, t1: seq<Call>, r1: Result<T, Request>, r2: Result<U, Request>, p: seq<Request>)
    requires FollowsPlan(t0, t1, r1, p)
    requires r1.Ok? <==> r2.Ok?
    requires r1.Err? ==> r2 == Err(r1.error)
    ensures FollowsPlan(t0, t1, r2, p)
  {
    RunsMap(t1[|t0|..], p, r1, r2);
  }

  // ---------------------------------------------------------------------------------------------
  // The media client's calls as steps.

  /** The request `uploadFile(file, folder)` issues. */
  function UploadRequestFor(folder: Option<string>): Request {
    UploadFileReq(["file", "folder"], Some(FolderText(folder)))
  }

  /** The URL the upload route answers with for an upload to `folder` under answer `ans`. */
  function UploadedUrl(folder: Option<string>, ans: UploadAnswer): Url
    requires ans.host.Stored?
  {
    SecureUrl(ans.host.deliveryBase, FolderText(folder), PublicIdFor(FolderText(folder), ans.now), ans.host.extension)
  }

  /** `mediaRepo.uploadFile(file, folder)`: on success the returned URL becomes live. */
  function UploadMedia(db: Db, file: MediaFile, folder: Option<string>, ans: UploadAnswer): (s: Step<Option<Url>>)
    ensures FollowsPlan(db.trace, s.db.trace, s.result, [UploadRequestFor(folder)])
    ensures StoreUnchanged(db, s.db)
    ensures s.result.Ok? <==> ans.host.Stored? && FolderText(folder) != ""
    ensures s.result.Ok? ==> s.result.value == Some(UploadedUrl(folder, ans))
    ensures s.db.live == db.live + (if s.result.Ok? then {UploadedUrl(folder, ans)} else {})
  {
    var reply := UploadCall(file, folder, ans.now, ans.host);
    var out := UploadOutcome(reply);
    UploadFileResolvesToSecureUrl(file, folder, ans.now, ans.host);
    var s := Single(db, UploadRequestFor(folder), out.Ok?, reply.hostCall, if out.Ok? then out.value else None);
    if out.Ok? && out.value.Some? then s.(db := s.db.(live := db.live + {out.value.value})) else s
  }

  /** `mediaRepo.deleteFile(url)`: the URL stops being live only when the route issued a destroy
      for it and the destroy was acknowledged. */
  function DeleteMedia(db: Db, url: Url, destroy: DestroyAnswer): (s: Step<()>)
    ensures FollowsPlan(db.trace, s.db.trace, s.result, [DeleteFileReq(url)])
    ensures StoreUnchanged(db, s.db)
    ensures s.result.Ok? <==> url != "" && (ExtractPublicId(url).None? || destroy == Destroyed)
    ensures s.db.trace[|db.trace|].host.Some? <==> ExtractPublicId(url).Some?
    ensures s.db.live == if ExtractPublicId(url).Some? && s.result.Ok? then db.live - {url} else db.live
  {
    var reply := DeleteCall(url, destroy);
    var s := Single(db, DeleteFileReq(url), DeleteOutcome(reply).Ok?, reply.hostCall, ());
    assert s.db.trace[|db.trace|] == Call(DeleteFileReq(url), DeleteOutcome(reply).Ok?, reply.hostCall);
    if reply.hostCall.Some? && s.result.Ok? then s.(db := s.db.(live := db.live - {url})) else s
  }

  /** The plan of `if (file) uploadFile(file, folder)`. */
  function UploadPlan(file: Option<MediaFile>, folder: Option<string>): seq<Request> {
    if file.Some? then [UploadRequestFor(folder)] else []
  }

  /** The plan of `if (url) deleteFile(url)`. */
  function DeletePlan(url: Option<Url>): seq<Request> {
    if Truthy(url) then [DeleteFileReq(url.value)] else []
  }

  /** A step that issues nothing and returns `value`. */
  function Done<T>(db: Db, value: T): (s: Step<T>)
    ensures FollowsPlan(db.trace, s.db.trace, s.result, [])
    ensures s == Step(db, Ok(value))
  {
    NothingFollowsEmptyPlan(db.trace, value);
    Step(db, Ok(value))
  }

  /** `if (file) url = await uploadFile(file, folder)`. */
  function MaybeUpload(db: Db, file: Option<MediaFile>, folder: Option<string>, ans: UploadAnswer): (s: Step<Option<Url>>)
    ensures FollowsPlan(db.trace, s.db.trace, s.result, UploadPlan(file, folder))
    ensures StoreUnchanged(db, s.db)
    ensures FolderText(folder) != "" ==> s.db.live == db.live + UploadedIf(file, folder, ans)
    ensures file.None? ==> s == Step(db, Ok(None))
    ensures file.Some? ==> s == UploadMedia(db, file.value, folder, ans)
  {
    if file.Some? then UploadMedia(db, file.value, folder, ans)
    else Done(db, None)
  }

  /** The URL an upload under answer `ans` returns, if the host stored the object. */
  function Uploaded(folder: Option<string>, ans: UploadAnswer): set<Url> {
    if ans.host.Stored? then {UploadedUrl(folder, ans)} else {}
  }

  /** The URL `if (file) uploadFile(file, folder)` adds to the live set, if any. */
  function UploadedIf(file: Option<MediaFile>, folder: Option<string>, ans: UploadAnswer): set<Url> {
    if file.Some? then Uploaded(folder, ans) else {}
  }

  /** The URL a delete may retire. */
  function Retirable(url: Option<Url>): set<Url> {
    if url.Some? then {url.value} else {}
  }

  /** `if (url) await deleteFile(url)`. */
  function MaybeDelete(db: Db, url: Option<Url>, destroy: DestroyAnswer): (s: Step<()>)
    ensures FollowsPlan(db.trace, s.db.trace, s.result, DeletePlan(url))
    ensures StoreUnchanged(db, s.db)
    ensures db.live - Retirable(url) <= s.db.live <= db.live
    ensures !Truthy(url) ==> s == Step(db, Ok(()))
    ensures Truthy(url) ==> s == DeleteMedia(db, url.value, destroy)
  {
    if Truthy(url) then DeleteMedia(db, url.value, destroy)
    else Done(db, ())
  }

  /** The plan of `if (file) { url = await uploadFile(file, folder); if (previous) await deleteFile(previous); }`. */
  function ReplacePlan(file: Option<MediaFile>, folder: Option<string>, previous: Option<Url>): seq<Request> {
    if file.Some? then [UploadRequestFor(folder)] + DeletePlan(previous) else []
  }

  /** The media half of an update: upload the new file, then retire the previous URL the caller
      passed, but only when a new file was given. */
  function ReplaceMedia(db: Db, file: Option<MediaFile>, folder: Option<string>, previous: Option<Url>,
                        up: UploadAnswer, destroy: DestroyAnswer): (s: Step<Option<Url>>)
    ensures FollowsPlan(db.trace, s.db.trace, s.result, ReplacePlan(file, folder, previous))
    ensures StoreUnchanged(db, s.db)
    ensures s.result.Ok? && file.Some? ==> up.host.Stored? && s.result.value == Some(UploadedUrl(folder, up))
    ensures s.result.Ok? && file.None? ==> s.result.value == None
    // Only the new file can become live, only the previous URL can stop being live, and on
    // success the new file is live unless it is the previous URL itself.
    ensures s.db.live <= db.live + UploadedIf(file, folder, up)
    ensures db.live - Retirable(previous) <= s.db.live
    ensures s.result.Ok? && file.Some? ==> Uploaded(folder, up) - Retirable(previous) <= s.db.live
  {
    if file.None? then Done(db, None)
    else UploadThenRetire(db, file.value, folder, previous, up, destroy)
  }

  /** `url = await uploadFile(file, folder); if (previous) await deleteFile(previous);` */
  function UploadThenRetire(db: Db, file: MediaFile, folder: Option<string>, previous: Option<Url>,
                            up: UploadAnswer, destroy: DestroyAnswer): (s: Step<Option<Url>>)
    ensures FollowsPlan(db.trace, s.db.trace, s.result, [UploadRequestFor(folder)] + DeletePlan(previous))
    ensures StoreUnchanged(db, s.db)
    ensures s.result.Ok? ==> up.host.Stored? && s.result.value == Some(UploadedUrl(folder, up))
    ensures s.db.live <= db.live + Uploaded(folder, up)
    ensures db.live - Retirable(previous) <= s.db.live
    ensures s.result.Ok? ==> Uploaded(folder, up) - Retirable(previous) <= s.db.live
  {
    var p1 := [UploadRequestFor(folder)];
    var s1 := UploadMedia(db, file, folder, up);
    if s1.result.Err? then
      AbortFollows(db.trace, s1.db.trace, s1.result, s1.result, p1, DeletePlan(previous));
      s1
    else
      var s2 := MaybeDelete(s1.db, previous, destroy);
      ThenFollows(db.trace, s1.db.trace, s2.db.trace, s1.result, s2.result, p1, DeletePlan(previous));
      var r := if s2.result.Ok? then s1.result else Err(s2.result.error);
      MapFollows(db.trace, s2.db.trace, s2.result, r, p1 + DeletePlan(previous));
      Step(s2.db, r)
  }

  /** The state and failure of a step that aborted, as a step of another result type. */
  function Rethrow<T, U>(s: Step<T>): (s': Step<U>)
    requires s.result.Err?
    ensures s'.db == s.db && s'.result == Err(s.result.error)
  {
    Step(s.db, Err(s.result.error))
  }

  // ---------------------------------------------------------------------------------------------
  // Queries.

  /** The store's listing `order` names every document of `m`. */
  predicate ListsAll<T>(order: seq<Id>, m: map<Id, T>) {
    forall k :: k in m ==> k in order
  }

  /** No key appears twice in `order`. */
  predicate NoRepeats(order: seq<Id>) {
    forall i, j :: 0 <= i < j < |order| ==> order[i] != order[j]
  }

  /** `order` is a listing of the collection `m`: each of its documents exactly once, and
      nothing else. */
  predicate Listing<T>(order: seq<Id>, m: map<Id, T>) {
    && NoRepeats(order)
    && (forall k :: k in m ==> k in order)
    && (forall i :: 0 <= i < |order| ==> order[i] in m)
  }

  /** The keys, in the store's `order`, of the documents of `m` that `keep` selects: what a
      `where` query returns. */
  function Select<T>(order: seq<Id>, m: map<Id, T>, keep: T -> bool): (ks: seq<Id>)
    ensures forall j :: 0 <= j < |ks| ==> ks[j] in m && keep(m[ks[j]]) && ks[j] in order
    ensures forall k :: k in order && k in m && keep(m[k]) ==> k in ks
    ensures |ks| > 0 ==> exists i :: 0 <= i < |order| && order[i] == ks[0] &&
                           forall i' :: 0 <= i' < i ==> !(order[i'] in m && keep(m[order[i']]))
  {
    if |order| == 0 then []
    else
      var rest := Select(order[1..], m, keep);
      if order[0] in m && keep(m[order[0]]) then [order[0]] + rest
      else
        assert |rest| > 0 ==> exists i :: 0 <= i < |order| && order[i] == rest[0] &&
                                forall i' :: 0 <= i' < i ==> !(order[i'] in m && keep(m[order[i']])) by {
          if |rest| > 0 {
            var i :| 0 <= i < |order[1..]| && order[1..][i] == rest[0] &&
                     forall i' :: 0 <= i' < i ==> !(order[1..][i'] in m && keep(m[order[1..][i']]));
            assert order[i + 1] == rest[0];
            assert forall i' :: 0 < i' < i + 1 ==> order[i'] == order[1..][i' - 1];
          }
        }
        rest
  }

  /** Dropping the head of a list without repeats leaves a list without repeats and without
      the head. */
  lemma NoRepeatsTail(order: seq<Id>)
    requires |order| > 0 && NoRepeats(order)
    ensures NoRepeats(order[1..]) && order[0] !in order[1..]
  {
    var rest := order[1..];
    forall i, j | 0 <= i < j < |rest| ensures rest[i] != rest[j] {
      assert rest[i] == order[i + 1] && rest[j] == order[j + 1];
    }
    forall j | 0 <= j < |rest| ensures rest[j] != order[0] {
      assert rest[j] == order[j + 1];
    }
  }

  /** The selected keys of a list are those of its tail, plus its head when selected. */
  lemma SelectedKeysSplit<T>(order: seq<Id>, m: map<Id, T>, keep: T -> bool)
    requires |order| > 0
    ensures (set k | k in order && k in m && keep(m[k])) ==
            (set k | k in order[1..] && k in m && keep(m[k])) + (if order[0] in m && keep(m[order[0]]) then {order[0]} else {})
  {
    assert forall k :: k in order <==> k == order[0] || k in order[1..];
  }

  /** Over a listing without repeats, a query yields each selected key exactly once. */
  lemma {:induction false} SelectCount<T>(order: seq<Id>, m: map<Id, T>, keep: T -> bool)
    requires NoRepeats(order)
    ensures |Select(order, m, keep)| == |set k | k in order && k in m && keep(m[k])|
    decreases |order|
  {
    if |order| > 0 {
      var rest := order[1..];
      NoRepeatsTail(order);
      SelectCount(rest, m, keep);
      SelectedKeysSplit(order, m, keep);
      var later := set k | k in rest && k in m && keep(m[k]);
      assert order[0] !in later;
    }
  }

  /** The keys of the documents of `m` that `keep` selects. */
  function Matching<T>(m: map<Id, T>, keep: T -> bool): set<Id> {
    set k | k in m && keep(m[k])
  }

  /** Over a listing of `m`, a query yields each document `keep` selects exactly once. */
  lemma ListedSelectCount<T>(order: seq<Id>, m: map<Id, T>, keep: T -> bool)
    requires Listing(order, m)
    ensures |Select(order, m, keep)| == |Matching(m, keep)|
  {
    SelectCount(order, m, keep);
    assert (set k | k in order && k in m && keep(m[k])) == Matching(m, keep);
  }
}

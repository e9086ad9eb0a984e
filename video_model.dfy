/** The video record (backend/models/Video.js): the schema's defaults and status values,
    and the module-level in-memory table used when the database is unavailable. A record
    is a JavaScript object, modelled as a map from field names to values. */
module VideoModel {
  import opened Wrappers
  import opened Text

  /** A field value: a string, a number, or a `Date` (milliseconds since the epoch). */
  datatype Value = Str(s: string) | Num(n: real) | Time(ms: int)

  /** A plain JavaScript object. `a + b` is `{...a, ...b}`: on a shared key `b` wins. */
  type Record = map<string, Value>

  /** JavaScript truthiness of a field: a missing field, `""` and `0` are falsy; a `Date`
      object is truthy. */
  predicate Truthy(r: Record, key: string) {
    key in r && match r[key]
                case Str(s) => s != ""
                case Num(n) => n != 0.0
                case Time(_) => true
  }

  // ---------------------------------------------------------------------------
  // Schema

  /** The allowed values of `status`. */
  const StatusValues: set<string> := {"processing", "ready", "error"}

  /** The fields without which a document is not saved. */
  const RequiredFields: set<string> := {"title", "cloudinaryId", "videoUrl"}

  /** The schema's default values, for the fields that have one. */
  const SchemaDefaults: Record :=
    map["description" := Str(""), "thumbnailUrl" := Str(""), "duration" := Num(0.0), "fileSize" := Num(0.0),
        "format" := Str("hls"), "status" := Str("processing"), "uploadedBy" := Str("anonymous")]

  /** A document as the schema fills it in: defaults first, given fields over them. */
  function WithDefaults(data: Record): (doc: Record)
    ensures forall k <- SchemaDefaults :: k in doc
    ensures forall k <- data :: k in doc && doc[k] == data[k]
    ensures forall k <- doc :: k in data || k in SchemaDefaults
  {
    SchemaDefaults + data
  }

  /** The schema's checks: every required field is a non-empty string and `status` is
      one of the three allowed values. */
  predicate Conforms(doc: Record) {
    && (forall k <- RequiredFields :: k in doc && doc[k].Str? && doc[k].s != "")
    && "status" in doc && doc["status"].Str? && doc["status"].s in StatusValues
  }

  /** A document the caller left without `status`, `format` or `uploadedBy` gets
      `"processing"`, `"hls"` and `"anonymous"`; such a document conforms exactly when
      its required fields are given. */
  lemma SchemaDefaultValues(data: Record)
    ensures "status" !in data ==> WithDefaults(data)["status"] == Str("processing")
    ensures "format" !in data ==> WithDefaults(data)["format"] == Str("hls")
    ensures "uploadedBy" !in data ==> WithDefaults(data)["uploadedBy"] == Str("anonymous")
    ensures "status" !in data ==>
              (Conforms(WithDefaults(data)) <==>
               forall k <- RequiredFields :: k in data && data[k].Str? && data[k].s != "")
  {
    if "status" !in data {
      var doc := WithDefaults(data);
      assert doc["status"] == Str("processing");
      forall k <- RequiredFields
        ensures k in doc && doc[k].Str? && doc[k].s != "" <==> k in data && data[k].Str? && data[k].s != ""
      {
        assert k !in SchemaDefaults;
      }
    }
  }

  /** A non-empty string under `key`. */
  predicate GivenString(r: Record, key: string) {
    key in r && r[key].Str? && r[key].s != ""
  }

  /** A document that carries an allowed `status` of its own conforms, once the
      defaults are filled in, exactly when its three required strings are given. */
  lemma ConformsWithStatus(data: Record)
    requires "status" in data && data["status"].Str? && data["status"].s in StatusValues
    ensures Conforms(WithDefaults(data)) <==>
              GivenString(data, "title") && GivenString(data, "cloudinaryId") && GivenString(data, "videoUrl")
  {
    var doc := WithDefaults(data);
    assert forall k <- RequiredFields :: k in data && data[k].Str? && data[k].s != "" <==> GivenString(data, k);
    forall k <- RequiredFields
      ensures k in doc && doc[k].Str? && doc[k].s != "" <==> GivenString(data, k)
    {
      assert k !in SchemaDefaults;
    }
    assert "title" in RequiredFields && "cloudinaryId" in RequiredFields && "videoUrl" in RequiredFields;
  }

  /** `createdAt` as the sort reads it (`0` for a record without a `Date` there). */
  function CreatedAt(r: Record): int {
    if "createdAt" in r && r["createdAt"].Time? then r["createdAt"].ms else 0
  }

  // ---------------------------------------------------------------------------
  // The in-memory table, as pure functions

  /** `createVideoInMemory`'s object literal: an `_id` from the truthy `cloudinaryId`
      or else the clock's milliseconds as text, then every given field (a given `_id`
      replaces that one), then both timestamps set to the clock. */
  function NewRecord(data: Record, now: nat): Record {
    var id := if Truthy(data, "cloudinaryId") then data["cloudinaryId"] else Str(NatToString(now));
    map["_id" := id] + data + map["createdAt" := Time(now), "updatedAt" := Time(now)]
  }

  /** The new record keeps every given field but the two timestamps, which are the
      clock; its `_id` is the given one, else the truthy `cloudinaryId`, else the clock
      as decimal text. */
  lemma NewRecordFields(data: Record, now: nat)
    ensures var r := NewRecord(data, now);
            && r["createdAt"] == Time(now) && r["updatedAt"] == Time(now) && CreatedAt(r) == now
            && (forall k <- data | k != "createdAt" && k != "updatedAt" :: k in r && r[k] == data[k])
            && r.Keys == data.Keys + {"_id", "createdAt", "updatedAt"}
            && r["_id"] == (if "_id" in data then data["_id"]
                            else if Truthy(data, "cloudinaryId") then data["cloudinaryId"]
                            else Str(NatToString(now)))
  {
  }

  /** `v._id === id || v.cloudinaryId === id`: strict equality, so only a string field
      equal to `id` matches. */
  predicate Matches(r: Record, id: string) {
    ("_id" in r && r["_id"] == Str(id)) || ("cloudinaryId" in r && r["cloudinaryId"] == Str(id))
  }

  /** The index `find` stops at: the first matching record, if any. */
  function FindIndex(videos: seq<Record>, id: string): (k: Option<nat>)
    ensures k.Some? ==> k.value < |videos| && Matches(videos[k.value], id)
    ensures k.Some? ==> forall j :: 0 <= j < k.value ==> !Matches(videos[j], id)
    ensures k.None? <==> forall j :: 0 <= j < |videos| ==> !Matches(videos[j], id)
  {
    if videos == [] then None
    else if Matches(videos[0], id) then Some(0)
    else match FindIndex(videos[1..], id)
         case None => None
         case Some(j) => Some(j + 1)
  }

  /** `getVideoByIdFromMemory` on a table. */
  function Lookup(videos: seq<Record>, id: string): Option<Record> {
    match FindIndex(videos, id)
    case None => None
    case Some(k) => Some(videos[k])
  }

  /** Write, then read: once a record with a non-empty string `cloudinaryId` is
      created, looking that id up finds a record (the first match, which is the new one
      unless an earlier record carries the same id). */
  lemma {:induction false} CreateThenLookup(videos: seq<Record>, data: Record, now: nat, c: string)
    requires "cloudinaryId" in data && data["cloudinaryId"] == Str(c) && c != ""
    ensures Lookup(videos + [NewRecord(data, now)], c).Some?
    ensures Lookup(videos, c).None? ==> Lookup(videos + [NewRecord(data, now)], c) == Some(NewRecord(data, now))
    ensures Lookup(videos, c).Some? ==> Lookup(videos + [NewRecord(data, now)], c) == Lookup(videos, c)
  {
    var t := videos + [NewRecord(data, now)];
    assert t[|videos|] == NewRecord(data, now);
    assert Matches(t[|videos|], c);
    match FindIndex(videos, c)
    case None =>
      assert forall j :: 0 <= j < |videos| ==> t[j] == videos[j];
    case Some(k) =>
      assert t[k] == videos[k];
      assert forall j :: 0 <= j < k ==> t[j] == videos[j];
  }

  /** The patch `updateVideoStatus` applies to a record in memory. */
  function StatusPatch(status: string, extra: Record, now: nat): Record {
    map["status" := Str(status)] + extra + map["updatedAt" := Time(now)]
  }

  /** `Object.assign(video, patch)` on the first match; an unknown id changes nothing. */
  function UpdateStatusIn(videos: seq<Record>, id: string, status: string, extra: Record, now: nat): (u: seq<Record>)
    ensures |u| == |videos|
  {
    match FindIndex(videos, id)
    case None => videos
    case Some(k) => videos[k := videos[k] + StatusPatch(status, extra, now)]
  }

  /** Only the matched record changes, and in it only `status`, the extra fields and
      `updatedAt`; `status` is the new one unless the extra fields name another. */
  lemma UpdateStatusChangesOnlyMatch(videos: seq<Record>, id: string, status: string, extra: Record, now: nat)
    ensures FindIndex(videos, id).None? ==> UpdateStatusIn(videos, id, status, extra, now) == videos
    ensures FindIndex(videos, id).Some? ==>
              var k := FindIndex(videos, id).value;
              var u := UpdateStatusIn(videos, id, status, extra, now);
              && (forall j :: 0 <= j < |videos| && j != k ==> u[j] == videos[j])
              && (forall f <- videos[k] | f != "status" && f != "updatedAt" && f !in extra :: f in u[k] && u[k][f] == videos[k][f])
              && u[k].Keys == videos[k].Keys + extra.Keys + {"status", "updatedAt"}
              && u[k]["updatedAt"] == Time(now)
              && u[k]["status"] == (if "status" in extra then extra["status"] else Str(status))
  {
    match FindIndex(videos, id)
    case None =>
    case Some(k) =>
      PatchFields(videos[k], status, extra, now);
  }

  /** What `Object.assign` with the status patch leaves in one record. */
  lemma PatchFields(r: Record, status: string, extra: Record, now: nat)
    ensures var p := r + StatusPatch(status, extra, now);
            && (forall f <- r | f != "status" && f != "updatedAt" && f !in extra :: f in p && p[f] == r[f])
            && p.Keys == r.Keys + extra.Keys + {"status", "updatedAt"}
            && p["updatedAt"] == Time(now)
            && p["status"] == (if "status" in extra then extra["status"] else Str(status))
  {
    assert "status" != "updatedAt" by {
      assert "status"[0] != "updatedAt"[0];
    }
  }

  // ---------------------------------------------------------------------------
  // Newest first

  /** `createdAt` never increases along the sequence. */
  predicate NewestFirst(s: seq<Record>) {
    forall i, j :: 0 <= i < j < |s| ==> CreatedAt(s[i]) >= CreatedAt(s[j])
  }

  /** Inserts `x` before the first element that is strictly older, i.e. after every
      element at least as new: how a stable sort places an element that came first. */
  function Insert(x: Record, s: seq<Record>): (r: seq<Record>)
    ensures |r| == |s| + 1
    ensures multiset(r) == multiset(s) + multiset{x}
  {
    if s == [] || CreatedAt(x) >= CreatedAt(s[0]) then [x] + s
    else
      assert s == [s[0]] + s[1..];
      [s[0]] + Insert(x, s[1..])
  }

  /** `inMemoryVideos.sort((a, b) => b.createdAt - a.createdAt)`: a stable sort, newest
      first, written as an insertion sort. */
  function SortNewestFirst(s: seq<Record>): (r: seq<Record>)
    ensures |r| == |s|
    ensures multiset(r) == multiset(s)
  {
    if s == [] then []
    else
      assert s == [s[0]] + s[1..];
      Insert(s[0], SortNewestFirst(s[1..]))
  }

  lemma {:induction false} InsertKeepsOrder(x: Record, s: seq<Record>)
    requires NewestFirst(s)
    ensures NewestFirst(Insert(x, s))
    ensures Insert(x, s) != [] && (Insert(x, s)[0] == x || Insert(x, s)[0] == s[0])
  {
    if s == [] || CreatedAt(x) >= CreatedAt(s[0]) {
    } else {
      InsertKeepsOrder(x, s[1..]);
      InsertBounded(x, s[1..], CreatedAt(s[0]));
    }
  }

  /** Inserting keeps every element at most as new as a bound all of them respect. */
  lemma {:induction false} InsertBounded(x: Record, s: seq<Record>, bound: int)
    requires CreatedAt(x) <= bound
    requires forall j :: 0 <= j < |s| ==> CreatedAt(s[j]) <= bound
    ensures forall j :: 0 <= j < |Insert(x, s)| ==> CreatedAt(Insert(x, s)[j]) <= bound
  {
    if s != [] && CreatedAt(x) < CreatedAt(s[0]) {
      InsertBounded(x, s[1..], bound);
    }
  }

  /** The sorted table is newest first and a permutation of the table before. */
  lemma {:induction false} SortIsNewestFirst(s: seq<Record>)
    ensures NewestFirst(SortNewestFirst(s))
    ensures multiset(SortNewestFirst(s)) == multiset(s)
  {
    if s != [] {
      SortIsNewestFirst(s[1..]);
      InsertKeepsOrder(s[0], SortNewestFirst(s[1..]));
    }
  }

  /** A table already newest first is left as it is; so sorting twice is sorting once. */
  lemma {:induction false} SortKeepsSorted(s: seq<Record>)
    requires NewestFirst(s)
    ensures SortNewestFirst(s) == s
  {
    if s != [] {
      assert NewestFirst(s[1..]) by {
        forall i, j | 0 <= i < j < |s[1..]| ensures CreatedAt(s[1..][i]) >= CreatedAt(s[1..][j]) {
          assert s[1..][i] == s[i + 1] && s[1..][j] == s[j + 1];
        }
      }
      SortKeepsSorted(s[1..]);
      if |s| > 1 {
        assert CreatedAt(s[0]) >= CreatedAt(s[1]);
      }
      assert s == [s[0]] + s[1..];
    }
  }

  lemma SortIdempotent(s: seq<Record>)
    ensures SortNewestFirst(SortNewestFirst(s)) == SortNewestFirst(s)
  {
    SortIsNewestFirst(s);
    SortKeepsSorted(SortNewestFirst(s));
  }

  /** The records of `s` created at time `c`, in their order in `s`. */
  function CreatedAtTime(s: seq<Record>, c: int): (r: seq<Record>)
    ensures |r| <= |s|
  {
    if s == [] then [] else (if CreatedAt(s[0]) == c then [s[0]] else []) + CreatedAtTime(s[1..], c)
  }

  /** The records of `[y] + t` created at time `c`. */
  lemma ConsCreatedAtTime(y: Record, t: seq<Record>, c: int)
    ensures CreatedAtTime([y] + t, c) == (if CreatedAt(y) == c then [y] else []) + CreatedAtTime(t, c)
  {
    assert ([y] + t)[1..] == t;
  }

  /** Two prefixes, one of them empty, can be exchanged. */
  lemma SwapPrefixes<T>(a: seq<T>, b: seq<T>, t: seq<T>)
    requires a == [] || b == []
    ensures a + (b + t) == b + (a + t)
  {
    if a == [] {
      assert a + (b + t) == b + t == b + (a + t);
    } else {
      assert b + (a + t) == a + t == a + (b + t);
    }
  }

  /** Inserting an element puts it in front of every element created at the same time,
      and moves none of those. */
  lemma {:induction false} InsertStable(x: Record, s: seq<Record>, c: int)
    ensures CreatedAtTime(Insert(x, s), c) == (if CreatedAt(x) == c then [x] else []) + CreatedAtTime(s, c)
  {
    if s == [] || CreatedAt(x) >= CreatedAt(s[0]) {
      ConsCreatedAtTime(x, s, c);
    } else {
      var mine: seq<Record> := if CreatedAt(x) == c then [x] else [];
      var first: seq<Record> := if CreatedAt(s[0]) == c then [s[0]] else [];
      var tail := Insert(x, s[1..]);
      calc {
        CreatedAtTime(Insert(x, s), c);
        CreatedAtTime([s[0]] + tail, c);
        { ConsCreatedAtTime(s[0], tail, c); }
        first + CreatedAtTime(tail, c);
        { InsertStable(x, s[1..], c); }
        first + (mine + CreatedAtTime(s[1..], c));
        { SwapPrefixes(first, mine, CreatedAtTime(s[1..], c)); }
        mine + (first + CreatedAtTime(s[1..], c));
        { ConsCreatedAtTime(s[0], s[1..], c); }
        mine + CreatedAtTime([s[0]] + s[1..], c);
        { assert s == [s[0]] + s[1..]; }
        mine + CreatedAtTime(s, c);
      }
    }
  }

  /** The sort is stable: records created at the same time keep their relative order. */
  lemma {:induction false} SortIsStable(s: seq<Record>, c: int)
    ensures CreatedAtTime(SortNewestFirst(s), c) == CreatedAtTime(s, c)
  {
    if s != [] {
      SortIsStable(s[1..], c);
      InsertStable(s[0], SortNewestFirst(s[1..]), c);
    }
  }

  // ---------------------------------------------------------------------------
  // The in-memory table

  /** The module-level `inMemoryVideos` array. */
  class MemoryTable {
    var videos: seq<Record>

    constructor ()
      ensures videos == []
    {
      videos := [];
    }

    /** `createVideoInMemory`: pushes the new record and returns it. */
    method Create(data: Record, now: nat) returns (r: Record)
      modifies this`videos
      ensures r == NewRecord(data, now)
      ensures videos == old(videos) + [r]
      ensures |videos| == |old(videos)| + 1 && videos[..|old(videos)|] == old(videos)
    {
      r := NewRecord(data, now);
      videos := videos + [r];
    }

    /** `getAllVideosFromMemory`: sorts the table itself and returns it. */
    method GetAll() returns (all: seq<Record>)
      modifies this`videos
      ensures videos == SortNewestFirst(old(videos)) && all == videos
      ensures NewestFirst(all) && multiset(all) == multiset(old(videos))
    {
      SortIsNewestFirst(videos);
      videos := SortNewestFirst(videos);
      all := videos;
    }

    /** `getVideoByIdFromMemory` */
    method GetById(id: string) returns (r: Option<Record>)
      ensures r.None? <==> forall j :: 0 <= j < |videos| ==> !Matches(videos[j], id)
      ensures r.Some? ==> exists k :: 0 <= k < |videos| && r.value == videos[k] && Matches(videos[k], id)
                                      && forall j :: 0 <= j < k ==> !Matches(videos[j], id)
    {
      var k := FindIndex(videos, id);
      r := if k.Some? then Some(videos[k.value]) else None;
    }

    /** The in-memory branch of `updateVideoStatus`: patches the first match in place
        and returns it, or returns nothing. */
    method UpdateStatus(id: string, status: string, extra: Record, now: nat) returns (r: Option<Record>)
      modifies this`videos
      ensures videos == UpdateStatusIn(old(videos), id, status, extra, now)
      ensures r.None? <==> Lookup(old(videos), id).None?
      ensures r.Some? ==> r.value == Lookup(old(videos), id).value + StatusPatch(status, extra, now)
    {
      var k := FindIndex(videos, id);
      if k.None? {
        return None;
      }
      var updated := videos[k.value] + StatusPatch(status, extra, now);
      videos := videos[k.value := updated];
      r := Some(updated);
    }
  }
}

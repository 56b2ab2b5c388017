/** The document-store semantics shared by the services: record identifiers,
    optional values, and the `sort(-date).skip(offset).limit(limit)` query shape
    used by the paged listings. */
module Store {

  /** A document identifier (a MongoDB ObjectId in its string form). */
  type Id = string

  datatype Option<+T> = None | Some(value: T)

  /** The value of an optional field or parameter with the default `d`
      filled in: the JavaScript default parameter `x: number = d`, and a
      field that a partial update leaves out. */
  function OrDefault<T>(x: Option<T>, d: T): (r: T)
    ensures x.None? ==> r == d
    ensures x.Some? ==> r == x.value
  {
    if x.Some? then x.value else d
  }

  /** The page that `skip(offset).limit(limit)` returns from the sorted result
      `s`: a contiguous run starting at position `offset`, cut at `limit`
      entries; a limit of 0 means "no limit", and skipping past the end yields
      an empty page. */
  function Window<T>(s: seq<T>, offset: nat, limit: nat): (w: seq<T>)
    ensures forall i :: 0 <= i < |w| ==> offset + i < |s| && w[i] == s[offset + i]
    ensures limit > 0 ==> |w| <= limit
    ensures (limit == 0 || |w| < limit) ==> offset + |w| >= |s|
  {
    var rest := if offset >= |s| then [] else s[offset..];
    if limit == 0 || |rest| <= limit then rest else rest[..limit]
  }

  /** `ids` lists keys of `stamps` from the newest to the oldest stamp. */
  ghost predicate NewestFirstOrder(ids: seq<Id>, stamps: map<Id, int>)
  {
    && (forall i :: 0 <= i < |ids| ==> ids[i] in stamps)
    && (forall i, j :: 0 <= i < j < |ids| ==> stamps[ids[j]] <= stamps[ids[i]])
  }

  /** Every key of `keys` occurs in `ids`. */
  ghost predicate Covers(ids: seq<Id>, keys: set<Id>)
  {
    forall k :: k in keys ==> k in ids
  }

  /** No identifier occurs twice in `ids`. */
  ghost predicate Distinct(ids: seq<Id>)
  {
    forall i, j :: 0 <= i < j < |ids| ==> ids[i] != ids[j]
  }

  lemma {:induction false} NewestExists(keys: set<Id>, stamps: map<Id, int>)
    requires keys != {} && keys <= stamps.Keys
    ensures exists k :: k in keys && forall j :: j in keys ==> stamps[j] <= stamps[k]
    decreases keys
  {
    var a :| a in keys;
    var rest := keys - {a};
    if rest == {} {
      assert keys == {a};
    } else {
      NewestExists(rest, stamps);
      var b :| b in rest && forall j :: j in rest ==> stamps[j] <= stamps[b];
      var top := if stamps[a] <= stamps[b] then b else a;
      assert forall j :: j in keys ==> stamps[j] <= stamps[top];
    }
  }

  /** A key of `keys` carrying the newest stamp; the store breaks ties in an
      order it does not specify, modelled as a fixed but unspecified choice. */
  ghost function Newest(keys: set<Id>, stamps: map<Id, int>): (k: Id)
    requires keys != {} && keys <= stamps.Keys
    ensures k in keys
    ensures forall j :: j in keys ==> stamps[j] <= stamps[k]
  {
    NewestExists(keys, stamps);
    var k :| k in keys && forall j :: j in keys ==> stamps[j] <= stamps[k]; k
  }

  /** `keys` in the order a descending sort on `stamps` returns them: every
      key exactly once, newest first. */
  ghost function SortNewestFirst(keys: set<Id>, stamps: map<Id, int>): (ids: seq<Id>)
    requires keys <= stamps.Keys
    ensures |ids| == |keys|
    ensures forall i :: 0 <= i < |ids| ==> ids[i] in keys
    ensures NewestFirstOrder(ids, stamps)
    ensures Covers(ids, keys)
    ensures Distinct(ids)
    decreases keys
  {
    if keys == {} then []
    else
      var k := Newest(keys, stamps);
      var tail := SortNewestFirst(keys - {k}, stamps);
      [k] + tail
  }

  /** The keys of `stamps` as the store returns them under a descending sort. */
  ghost function NewestFirst(stamps: map<Id, int>): (ids: seq<Id>)
    ensures |ids| == |stamps|
    ensures NewestFirstOrder(ids, stamps)
    ensures Covers(ids, stamps.Keys)
    ensures Distinct(ids)
  {
    assert |stamps| == |stamps.Keys|;
    SortNewestFirst(stamps.Keys, stamps)
  }

  /** The keys that `sort({ stamp: -1 }).skip(offset).limit(limit)` returns
      from the records stamped by `stamps`: newest first, a contiguous run of
      the full ordering starting at `offset`, cut at `limit` (0: no limit). */
  ghost function PageIds(stamps: map<Id, int>, offset: nat, limit: nat): (ids: seq<Id>)
    ensures forall i :: 0 <= i < |ids| ==> ids[i] in stamps
    ensures forall i, j :: 0 <= i < j < |ids| ==> stamps[ids[j]] <= stamps[ids[i]]
    ensures forall i, j :: 0 <= i < j < |ids| ==> ids[i] != ids[j]
    ensures limit > 0 ==> |ids| <= limit
    ensures |ids| > 0 ==> offset + |ids| <= |stamps|
    ensures (limit == 0 || |ids| < limit) ==> offset + |ids| >= |stamps|
    ensures forall i :: 0 <= i < |ids| ==> ids[i] == NewestFirst(stamps)[offset + i]
  {
    var sorted := NewestFirst(stamps);
    var ids := Window(sorted, offset, limit);
    assert forall i, j :: 0 <= i < j < |ids| ==> stamps[ids[j]] <= stamps[ids[i]] by {
      forall i, j | 0 <= i < j < |ids|
        ensures stamps[ids[j]] <= stamps[ids[i]]
      {
        assert ids[i] == sorted[offset + i] && ids[j] == sorted[offset + j];
      }
    }
    assert forall i, j :: 0 <= i < j < |ids| ==> ids[i] != ids[j] by {
      forall i, j | 0 <= i < j < |ids|
        ensures ids[i] != ids[j]
      {
        assert ids[i] == sorted[offset + i] && ids[j] == sorted[offset + j];
      }
    }
    ids
  }

  /** The records stored under `ids`, in that order. */
  function Fetch<V>(m: map<Id, V>, ids: seq<Id>): (vs: seq<V>)
    requires forall i :: 0 <= i < |ids| ==> ids[i] in m
    ensures |vs| == |ids|
    ensures forall i :: 0 <= i < |ids| ==> vs[i] == m[ids[i]]
  {
    seq(|ids|, i requires 0 <= i < |ids| => m[ids[i]])
  }
}

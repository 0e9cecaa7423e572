/** What a load, a reload and an invalidation do to the image cache: when a file is decoded, what is
    kept for the next load, and that other files' images stay. */
module MediaOutcomes {
  import opened Text
  import opened Media

  /** The cache keeps this entry for the path. */
  ghost predicate Keeps(c: Cache, path: string, e: CacheEntry) {
    exists i: nat :: i < |c.paths| && i < |c.entries| && c.paths[i] == path && c.entries[i] == e
  }

  lemma KeptAt(c: Cache, path: string, e: CacheEntry)
    requires Matched(c) && Keeps(c, path, e)
    ensures IndexOf(c.paths, path).Some? && c.entries[IndexOf(c.paths, path).value] == e
  {
    var i: nat :| i < |c.paths| && i < |c.entries| && c.paths[i] == path && c.entries[i] == e;
    var r := IndexOf(c.paths, path);
  }

  /** An image in the cache under the same size and modification time is returned without decoding,
      whatever decoding would now give; an empty image counts as no image. */
  lemma SameIdentityIsNotDecoded(c: Cache, path: string, e: CacheEntry, f: FileState, decode: Decoder)
    requires Matched(c) && path != "" && Keeps(c, path, e) && e.size == f.size && e.modified == f.modified
    ensures Load(c, path, Some(f), false, decode) == Loaded(c,
      if e.image.width > 0 && e.image.height > 0 && |e.image.pixels| > 0 then Some(e.image) else None)
  {
    KeptAt(c, path, e);
  }

  /** A forced load, one of an unknown file and one of a changed file decode; what they decode is kept
      under the file's present size and time, and the next plain load returns it undecoded. */
  lemma DecodedIsKept(c: Cache, path: string, f: FileState, force: bool, decode: Decoder, later: Decoder)
    requires Matched(c) && path != ""
    requires force || forall e | Keeps(c, path, e) :: e.size != f.size || e.modified != f.modified
    ensures var t := Load(c, path, Some(f), force, decode);
      && t.image == decode(path, f)
      && Matched(t.cache)
      && (t.image == None ==> t.cache == c)
      && (t.image.Some? ==>
        && Keeps(t.cache, path, CacheEntry(t.image.value, f.size, f.modified))
        && (t.image.value.width > 0 && t.image.value.height > 0 && |t.image.value.pixels| > 0 ==>
          Load(t.cache, path, Some(f), false, later) == t))
  {
    hide Stored;
    var at := IndexOf(c.paths, path);
    if at.Some? {
      assert Keeps(c, path, c.entries[at.value]);
    }
    var decoded := decode(path, f);
    if decoded.Some? {
      var e := CacheEntry(decoded.value, f.size, f.modified);
      StoredIsKept(c, path, e);
      KeptAt(Stored(c, path, e), path, e);
    }
  }

  lemma StoredIsKept(c: Cache, path: string, e: CacheEntry)
    requires Matched(c)
    ensures Matched(Stored(c, path, e)) && Keeps(Stored(c, path, e), path, e)
  {
    var at := IndexOf(c.paths, path);
    var t := Stored(c, path, e);
    var i := if at.Some? then at.value else |c.paths|;
    assert t.paths[i] == path && t.entries[i] == e;
  }

  /** No path, or a file whose size and time cannot be read: nothing is loaded and nothing changes. */
  lemma UnreadableLoadsNothing(c: Cache, path: string, file: Option<FileState>, force: bool, decode: Decoder)
    requires Matched(c) && (path == "" || file == None)
    ensures Load(c, path, file, force, decode) == Loaded(c, None)
  {
  }

  /** Loading or invalidating one path leaves the images of all others. */
  lemma OthersAreKept(c: Cache, path: string, file: Option<FileState>, force: bool, decode: Decoder,
                      other: string, e: CacheEntry)
    requires Matched(c) && other != path
    ensures Keeps(Load(c, path, file, force, decode).cache, other, e) <==> Keeps(c, other, e)
    ensures Keeps(Dropped(c, path), other, e) <==> Keeps(c, other, e)
  {
    hide Stored, Dropped;
    DroppingKeeps(c, path, other, e);
    if path != "" && file.Some? && decode(path, file.value).Some? {
      StoringKeeps(c, path, CacheEntry(decode(path, file.value).value, file.value.size, file.value.modified), other, e);
    }
  }

  lemma StoringKeeps(c: Cache, path: string, entry: CacheEntry, other: string, e: CacheEntry)
    requires Matched(c) && other != path
    ensures Keeps(Stored(c, path, entry), other, e) <==> Keeps(c, other, e)
  {
    var t := Stored(c, path, entry);
    if Keeps(t, other, e) {
      var i: nat :| i < |t.paths| && i < |t.entries| && t.paths[i] == other && t.entries[i] == e;
      assert c.paths[i] == other && c.entries[i] == e;
    }
    if Keeps(c, other, e) {
      var i: nat :| i < |c.paths| && i < |c.entries| && c.paths[i] == other && c.entries[i] == e;
      assert t.paths[i] == other && t.entries[i] == e;
    }
  }

  /** Where the entries behind a dropped one have moved to. */
  lemma DroppedAt(c: Cache, path: string)
    requires Matched(c)
    ensures var t, at := Dropped(c, path), IndexOf(c.paths, path);
      if at.None? then t == c
      else
        && |t.paths| == |t.entries| == |c.paths| - 1
        && (forall k | 0 <= k < at.value :: t.paths[k] == c.paths[k] && t.entries[k] == c.entries[k])
        && (forall k | at.value <= k < |t.paths| :: t.paths[k] == c.paths[k + 1] && t.entries[k] == c.entries[k + 1])
  {
  }

  lemma DroppingKeeps(c: Cache, path: string, other: string, e: CacheEntry)
    requires Matched(c) && other != path
    ensures Keeps(Dropped(c, path), other, e) <==> Keeps(c, other, e)
  {
    hide Dropped, Keeps;
    var at := IndexOf(c.paths, path);
    DroppedAt(c, path);
    if at.Some? {
      if Keeps(Dropped(c, path), other, e) {
        DroppingAdds(c, Dropped(c, path), at.value, other, e);
      }
      if Keeps(c, other, e) {
        DroppingLoses(c, Dropped(c, path), at.value, other, e);
      }
    }
  }

  /** `t` is `c` without what stands at `at`. */
  predicate Without(c: Cache, t: Cache, at: nat) {
    && at < |c.paths| == |c.entries| && |t.paths| == |t.entries| == |c.paths| - 1
    && (forall k | 0 <= k < at :: t.paths[k] == c.paths[k] && t.entries[k] == c.entries[k])
    && (forall k | at <= k < |t.paths| :: t.paths[k] == c.paths[k + 1] && t.entries[k] == c.entries[k + 1])
  }

  lemma DroppingAdds(c: Cache, t: Cache, at: nat, other: string, e: CacheEntry)
    requires Without(c, t, at) && Keeps(t, other, e)
    ensures Keeps(c, other, e)
  {
    var i: nat :| i < |t.paths| && i < |t.entries| && t.paths[i] == other && t.entries[i] == e;
    var k := if i >= at then i + 1 else i;
    assert c.paths[k] == other && c.entries[k] == e;
  }

  lemma DroppingLoses(c: Cache, t: Cache, at: nat, other: string, e: CacheEntry)
    requires Without(c, t, at) && Keeps(c, other, e) && c.paths[at] != other
    ensures Keeps(t, other, e)
  {
    var i: nat :| i < |c.paths| && i < |c.entries| && c.paths[i] == other && c.entries[i] == e;
    var k := if i > at then i - 1 else i;
    assert t.paths[k] == other && t.entries[k] == e;
  }

  /** An invalidated file is decoded again by the next load. */
  lemma InvalidatedIsDecoded(c: Cache, path: string, f: FileState, decode: Decoder)
    requires Matched(c) && path != ""
    ensures Matched(Dropped(c, path)) && Load(Dropped(c, path), path, Some(f), false, decode).image == decode(path, f)
  {
    DroppedIsGone(c, path);
  }

  lemma DroppedIsGone(c: Cache, path: string)
    requires Matched(c)
    ensures Matched(Dropped(c, path)) && IndexOf(Dropped(c, path).paths, path).None?
  {
    hide Dropped;
    DroppedAt(c, path);
    var at, t := IndexOf(c.paths, path), Dropped(c, path);
    if at.Some? {
      forall i, j | 0 <= i < j < |t.paths| ensures t.paths[i] != t.paths[j] {
        var a, b := if i < at.value then i else i + 1, if j < at.value then j else j + 1;
        assert t.paths[i] == c.paths[a] && t.paths[j] == c.paths[b];
      }
      forall k | 0 <= k < |t.paths| ensures t.paths[k] != path {
        var a := if k < at.value then k else k + 1;
        assert t.paths[k] == c.paths[a] && a != at.value;
      }
    }
  }
}

/** The decoded-image cache of `src/media/store.cpp`. File identity and decoding are given as
    values and an oracle; a file does not change while one load runs. */
module Media {
  import opened Text

  datatype FileState = FileState(size: int, modified: int, content: string)

  datatype Image = Image(width: int, height: int, pixels: seq<int>)

  predicate IsValid(image: Image) { image.width > 0 && image.height > 0 && image.pixels != [] }

  /** Decodes the file at a path; None is a failed decode. */
  type Decoder = (string, FileState) -> Option<Image>

  datatype CacheEntry = CacheEntry(image: Image, size: int, modified: int)

  // ---- the two parallel arrays -------------------------------------------------------

  datatype Cache = Cache(paths: seq<string>, entries: seq<CacheEntry>)

  predicate Matched(c: Cache) {
    |c.paths| == |c.entries| && forall i, j | 0 <= i < j < |c.paths| :: c.paths[i] != c.paths[j]
  }

  function IndexOf(paths: seq<string>, path: string): (r: Option<nat>)
    ensures r.Some? ==> r.value < |paths| && paths[r.value] == path && forall k | 0 <= k < r.value :: paths[k] != path
    ensures r.None? ==> forall k | 0 <= k < |paths| :: paths[k] != path
  {
    if paths == [] then None
    else if paths[0] == path then Some(0)
    else match IndexOf(paths[1..], path)
      case None => None
      case Some(i) => Some(i + 1)
  }

  function Stored(c: Cache, path: string, entry: CacheEntry): Cache
    requires Matched(c)
  {
    match IndexOf(c.paths, path)
    case Some(i) => Cache(c.paths, c.entries[i := entry])
    case None => Cache(c.paths + [path], c.entries + [entry])
  }

  function Dropped(c: Cache, path: string): Cache
    requires Matched(c)
  {
    match IndexOf(c.paths, path)
    case Some(i) => Cache(c.paths[..i] + c.paths[i + 1..], c.entries[..i] + c.entries[i + 1..])
    case None => c
  }

  /** The entry a load may use without decoding. */
  function Hit(c: Cache, path: string, file: FileState, force: bool): Option<Image>
    requires Matched(c)
  {
    match IndexOf(c.paths, path)
    case None => None
    case Some(i) =>
      var e := c.entries[i];
      if !force && e.size == file.size && e.modified == file.modified then Some(e.image)
      else None
  }

  datatype Loaded = Loaded(cache: Cache, image: Option<Image>)

  /** `file` is None when the file's identity cannot be read. */
  function Load(c: Cache, path: string, file: Option<FileState>, force: bool, decode: Decoder): Loaded
    requires Matched(c)
  {
    if path == "" || file.None? then Loaded(c, None)
    else
      var hit := Hit(c, path, file.value, force);
      if hit.Some? then Loaded(c, if IsValid(hit.value) then hit else None)
      else match decode(path, file.value)
        case None => Loaded(c, None)
        case Some(image) =>
          Loaded(Stored(c, path, CacheEntry(image, file.value.size, file.value.modified)), Some(image))
  }

  // ---- the store -------------------------------------------------------------------------

  class MediaStore {
    var cachePaths: seq<string>
    var cacheEntries: seq<CacheEntry>

    function Contents(): Cache
      reads this
    {
      Cache(cachePaths, cacheEntries)
    }

    constructor ()
      ensures Contents() == Cache([], [])
    {
      cachePaths, cacheEntries := [], [];
    }

    method LoadFile(path: string, file: Option<FileState>, forceReload: bool,
                    decode: Decoder) returns (image: Option<Image>)
      requires Matched(Contents())
      modifies this
      ensures Matched(Contents())
      ensures Loaded(Contents(), image) == Load(old(Contents()), path, file, forceReload, decode)
    {
      if path == "" || file.None? { return None; }
      if !forceReload {
        for index := 0 to |cachePaths|
          invariant Contents() == old(Contents())
          invariant forall k | 0 <= k < index :: cachePaths[k] != path
        {
          if cachePaths[index] != path { continue; }
          var entry := cacheEntries[index];
          if entry.size == file.value.size && entry.modified == file.value.modified {
            return if IsValid(entry.image) then Some(entry.image) else None;
          }
          break;
        }
      }
      var decoded := decode(path, file.value);
      if decoded.None? { return None; }
      var entry := CacheEntry(decoded.value, file.value.size, file.value.modified);
      var replaced := false;
      for index := 0 to |cachePaths|
        invariant Contents() == old(Contents()) && !replaced
        invariant forall k | 0 <= k < index :: cachePaths[k] != path
      {
        if cachePaths[index] == path {
          cacheEntries := cacheEntries[index := entry];
          replaced := true;
          break;
        }
      }
      if !replaced {
        cachePaths, cacheEntries := cachePaths + [path], cacheEntries + [entry];
      }
      return decoded;
    }

    method FindCached(path: string) returns (image: Option<Image>)
      requires Matched(Contents())
      ensures image == match IndexOf(cachePaths, path) case None => None case Some(i) => Some(cacheEntries[i].image)
    {
      for index := 0 to |cachePaths|
        invariant forall k | 0 <= k < index :: cachePaths[k] != path
      {
        if cachePaths[index] == path { return Some(cacheEntries[index].image); }
      }
      return None;
    }

    method InvalidatePath(path: string)
      requires Matched(Contents())
      modifies this
      ensures Matched(Contents()) && Contents() == Dropped(old(Contents()), path)
    {
      for index := 0 to |cachePaths|
        invariant Contents() == old(Contents())
        invariant forall k | 0 <= k < index :: cachePaths[k] != path
      {
        if cachePaths[index] == path {
          cachePaths, cacheEntries :=
            cachePaths[..index] + cachePaths[index + 1..], cacheEntries[..index] + cacheEntries[index + 1..];
          return;
        }
      }
    }

    method InvalidateAll()
      modifies this
      ensures Contents() == Cache([], [])
    {
      cachePaths, cacheEntries := [], [];
    }
  }

  // ---- runs ---------------------------------------------------------------------------------

  datatype Op =
    | LoadOp(path: string, force: bool)
    | ChangeFile(path: string, file: Option<FileState>)
    | InvalidateOp(path: string)
    | InvalidateAllOp

  datatype World = World(cache: Cache, files: map<string, FileState>)

  function FileAt(w: World, path: string): Option<FileState> {
    if path in w.files then Some(w.files[path]) else None
  }

  function Step(w: World, op: Op, decode: Decoder): (r: World)
    requires Matched(w.cache)
    ensures Matched(r.cache)
  {
    match op
    case LoadOp(path, force) => w.(cache := Load(w.cache, path, FileAt(w, path), force, decode).cache)
    case ChangeFile(path, file) =>
      w.(files := if file.Some? then w.files[path := file.value] else w.files - {path})
    case InvalidateOp(path) => w.(cache := Dropped(w.cache, path))
    case InvalidateAllOp => w.(cache := Cache([], []))
  }

  /** Every load of the run returns what decoding the file at that moment would return. */
  predicate Faithful(w: World, run: seq<Op>, decode: Decoder)
    requires Matched(w.cache)
    decreases |run|
  {
    run == [] ||
    ((run[0].LoadOp? ==>
      Load(w.cache, run[0].path, FileAt(w, run[0].path), run[0].force, decode).image
        == Uncached(w, run[0].path, decode))
     && Faithful(Step(w, run[0], decode), run[1..], decode))
  }

  function Uncached(w: World, path: string, decode: Decoder): Option<Image> {
    if path == "" || path !in w.files then None else decode(path, w.files[path])
  }

  /** A successful decode yields a valid image. */
  ghost predicate DecodesValid(decode: Decoder) {
    forall path, file :: decode(path, file).Some? ==> IsValid(decode(path, file).value)
  }

  predicate SameIdentity(f: FileState, g: FileState) { f.size == g.size && f.modified == g.modified }

  /** Size and modification time determine what a readable file decodes to. */
  ghost predicate IdentityDetermines(decode: Decoder) {
    forall path, f, g | path != "" && SameIdentity(f, g) && decode(path, f).Some? :: decode(path, g) == decode(path, f)
  }

  /** Each entry is what some version of its file decoded to. */
  ghost predicate Genuine(c: Cache, decode: Decoder)
    requires Matched(c)
  {
    forall i | 0 <= i < |c.paths| :: GenuineEntry(c.paths[i], c.entries[i], decode)
  }

  ghost predicate GenuineEntry(path: string, e: CacheEntry, decode: Decoder) {
    path != "" && exists content :: decode(path, FileState(e.size, e.modified, content)) == Some(e.image)
  }

  lemma StepKeepsGenuine(w: World, op: Op, decode: Decoder)
    requires Matched(w.cache) && Genuine(w.cache, decode)
    ensures Genuine(Step(w, op, decode).cache, decode)
  {
    hide GenuineEntry;
    if op.LoadOp? {
      var file := FileAt(w, op.path);
      if op.path != "" && file.Some? && decode(op.path, file.value).Some? {
        NewEntryIsGenuine(op.path, file.value, decode);
      }
    }
  }

  lemma NewEntryIsGenuine(path: string, file: FileState, decode: Decoder)
    requires path != "" && decode(path, file).Some?
    ensures GenuineEntry(path, CacheEntry(decode(path, file).value, file.size, file.modified), decode)
  {
    assert file == FileState(file.size, file.modified, file.content);
  }

  lemma LoadIsFaithful(w: World, path: string, force: bool, decode: Decoder)
    requires Matched(w.cache) && Genuine(w.cache, decode) && DecodesValid(decode) && IdentityDetermines(decode)
    ensures Load(w.cache, path, FileAt(w, path), force, decode).image == Uncached(w, path, decode)
  {
    var file := FileAt(w, path);
    if path != "" && file.Some? && Hit(w.cache, path, file.value, force).Some? {
      var i := IndexOf(w.cache.paths, path).value;
      var e := w.cache.entries[i];
      assert GenuineEntry(w.cache.paths[i], e, decode);
      var content :| decode(path, FileState(e.size, e.modified, content)) == Some(e.image);
      assert SameIdentity(FileState(e.size, e.modified, content), file.value);
    }
  }

  lemma {:induction false} RunIsFaithful(w: World, run: seq<Op>, decode: Decoder)
    requires Matched(w.cache) && Genuine(w.cache, decode) && DecodesValid(decode) && IdentityDetermines(decode)
    ensures Faithful(w, run, decode)
    decreases |run|
  {
    hide Genuine, DecodesValid, IdentityDetermines;
    if run != [] {
      if run[0].LoadOp? {
        LoadIsFaithful(w, run[0].path, run[0].force, decode);
      }
      StepKeepsGenuine(w, run[0], decode);
      RunIsFaithful(Step(w, run[0], decode), run[1..], decode);
    }
  }

  function Fresh(): World { World(Cache([], []), map[]) }

  /** Two versions with the same identity and different images: the second load is stale. */
  lemma StaleRun(path: string, f: FileState, g: FileState, decode: Decoder)
    requires path != "" && SameIdentity(f, g) && decode(path, f).Some? && decode(path, g) != decode(path, f)
    requires IsValid(decode(path, f).value)
    ensures !Faithful(Fresh(),
      [ChangeFile(path, Some(f)), LoadOp(path, false), ChangeFile(path, Some(g)), LoadOp(path, false)], decode)
  {
    var a, b, c, d := ChangeFile(path, Some(f)), LoadOp(path, false), ChangeFile(path, Some(g)), LoadOp(path, false);
    var w1 := Step(Fresh(), a, decode);
    var w2 := Step(w1, b, decode);
    var w3 := Step(w2, c, decode);
    assert w2.cache == Cache([path], [CacheEntry(decode(path, f).value, f.size, f.modified)]);
    assert !Faithful(w3, [d], decode);
    assert [c, d][1..] == [d];
    assert !Faithful(w2, [c, d], decode);
    assert [b, c, d][1..] == [c, d];
    assert !Faithful(w1, [b, c, d], decode);
    assert [a, b, c, d][1..] == [b, c, d];
  }

  /** The cache is invisible, after any sequence of loads, forced reloads, invalidations and file
      changes, if and only if size and modification time determine what a file decodes to. */
  lemma CacheIsInvisibleExactly(decode: Decoder)
    requires DecodesValid(decode)
    ensures (forall run :: Faithful(Fresh(), run, decode)) <==> IdentityDetermines(decode)
  {
    if IdentityDetermines(decode) {
      forall run ensures Faithful(Fresh(), run, decode) {
        RunIsFaithful(Fresh(), run, decode);
      }
    } else {
      var path, f, g :| path != "" && SameIdentity(f, g) && decode(path, f).Some? && decode(path, g) != decode(path, f);
      StaleRun(path, f, g, decode);
    }
  }
}

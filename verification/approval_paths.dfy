/** The path a person approves and the path a tool then uses: `cli/host.cpp` resolves paths
    once for the approval prompt and again at execution. */
module ApprovalPaths {
  import opened Text
  import opened JsonCodec
  import opened JsonTokens
  import opened JsonLookup
  import opened JsonLens
  import opened PathGuards

  function DefaultBareFilename(path: string, desktop: string): string {
    if path == "" || desktop == "" then path
    else if exists c | c in path :: IsSep(c) then path
    else
      var last := desktop[|desktop| - 1];
      desktop + (if IsSep(last) then "" else "\\") + path
  }

  predicate LooksLikePlaceholder(path: string) {
    var lowered := Lower(path);
    || Contains(lowered, "path/to/")
    || Contains(lowered, "path\\to\\")
    || Contains(lowered, "<")
    || Contains(lowered, "your_file")
    || Contains(lowered, "yourfile")
    || Contains(lowered, "example.txt")
    || Contains(lowered, "filename.ext")
    || Contains(lowered, "username")
  }

  // ---- the working directory of run_command and run_ffmpeg -----------------------------

  function ResolveWorkDir(requested: string, desktop: string): string {
    if requested == "" then desktop
    else
      var substituted := Substitute(requested, desktop);
      if LooksLikePlaceholder(substituted) || InventedDesktop(substituted, desktop) then desktop
      else substituted
  }

  /** Resolving the resolved directory again gives the same directory: because a second
      substitution changes nothing, or because whatever shows the desktop path is a placeholder
      and is replaced by it. */
  lemma WorkDirResolvesOnce(requested: string, desktop: string)
    requires Stable(desktop) || LooksLikePlaceholder(desktop)
    ensures ResolveWorkDir(ResolveWorkDir(requested, desktop), desktop) == ResolveWorkDir(requested, desktop)
  {
    hide Substitute, LooksLikePlaceholder, Segments, Stable, Occurs;
    EmptyIsStable();
    assert !InventedDesktop(desktop, desktop);
    if Stable(desktop) {
      DesktopIsKept(desktop);
      SecondRunKeeps(requested, desktop);
      if requested != "" {
        SubstituteIsNonempty(requested, desktop);
      }
    } else {
      assert desktop != "" by { EmptyIsNoPlaceholder(); }
      ShownIsPlaceholder(requested, desktop);
      ShownIsPlaceholder(desktop, desktop);
    }
  }

  lemma EmptyIsNoPlaceholder()
    ensures !LooksLikePlaceholder("")
  {
    assert Lower("") == "";
  }

  /** On a placeholder-like desktop path the substitution leaves the text alone or makes it a
      placeholder too. */
  lemma ShownIsPlaceholder(s: string, desktop: string)
    requires desktop != "" && LooksLikePlaceholder(desktop)
    ensures Substitute(s, desktop) == s || LooksLikePlaceholder(Substitute(s, desktop))
  {
    hide Substitute, LooksLikePlaceholder, Occurs;
    SubstituteShows(s, desktop);
    var t := Substitute(s, desktop);
    if t != s {
      var i :| Occurs(t, desktop, i);
      PlaceholderInside(t, desktop, i);
    }
  }

  lemma PlaceholderInside(t: string, part: string, i: int)
    requires Occurs(t, part, i) && LooksLikePlaceholder(part)
    ensures LooksLikePlaceholder(t)
  {
    hide Contains;
    assert Lower(t)[i..i + |part|] == Lower(part) by {
      assert t[i..i + |part|] == part;
    }
    ContainsInside(Lower(t), Lower(part), i, "path/to/");
    ContainsInside(Lower(t), Lower(part), i, "path\\to\\");
    ContainsInside(Lower(t), Lower(part), i, "<");
    ContainsInside(Lower(t), Lower(part), i, "your_file");
    ContainsInside(Lower(t), Lower(part), i, "yourfile");
    ContainsInside(Lower(t), Lower(part), i, "example.txt");
    ContainsInside(Lower(t), Lower(part), i, "filename.ext");
    ContainsInside(Lower(t), Lower(part), i, "username");
  }

  lemma ContainsInside(t: string, part: string, i: int, word: string)
    requires Occurs(t, part, i)
    ensures Contains(part, word) ==> Contains(t, word)
  {
    if Contains(part, word) {
      FindFound(part, word, 0);
      var j := Find(part, word, 0).value;
      OccursInside(t, part, i, word, j);
      OccursIsFound(t, word, i + j);
    }
  }

  lemma OccursInside(t: string, part: string, i: int, word: string, j: nat)
    requires Occurs(t, part, i) && Occurs(part, word, j)
    ensures Occurs(t, word, i + j)
  {
    forall k | 0 <= k < |word| ensures t[i + j + k] == word[k] {
      assert part[j..j + |word|][k] == part[j + k];
      assert t[i..i + |part|][j + k] == t[i + (j + k)];
    }
    assert t[i + j..i + j + |word|] == word;
  }

  lemma OccursIsFound(s: string, word: string, i: nat)
    requires Occurs(s, word, i)
    ensures Contains(s, word)
  {
    hide Occurs;
    if Find(s, word, 0).None? {
      NotFoundNowhere(s, word, 0, i);
    }
  }

  lemma {:induction false} NotFoundNowhere(s: string, word: string, from: nat, i: nat)
    requires Find(s, word, from).None? && from <= i
    ensures !Occurs(s, word, i)
    decreases i - from
  {
    if from + |word| <= |s| && from < i {
      NotFoundNowhere(s, word, from + 1, i);
    }
  }

  // A placeholder that appears only with the separator behind the desktop path ends there.

  lemma NewAtEnd(d: string, c: char, word: string)
    requires Contains(d + [c], word) && !Contains(d, word) && word != ""
    ensures word[|word| - 1] == c
    ensures |word| - 1 <= |d| && d[|d| - (|word| - 1)..] == word[..|word| - 1]
  {
    hide Contains;
    var s := d + [c];
    assert Find(s, word, 0).Some? by { ContainsIsFind(s, word); }
    FindFound(s, word, 0);
    var i := Find(s, word, 0).value;
    assert s[i..i + |word|] == word;
    if i + |word| <= |d| {
      assert d[i..i + |word|] == s[i..i + |word|];
      OccursIsFound(d, word, i);
    }
    assert i + |word| == |s|;
    forall k | 0 <= k < |word| ensures word[k] == s[i + k] {
      assert word[k] == s[i..i + |word|][k];
    }
    assert d[i..] == word[..|word| - 1];
  }

  lemma ContainsIsFind(s: string, word: string)
    ensures Contains(s, word) <==> Find(s, word, 0).Some?
  {
  }

  lemma NewIsSlash(d: string, c: char)
    requires IsSep(c) && LooksLikePlaceholder(d + [c]) && !LooksLikePlaceholder(d)
    ensures |d| >= 7 && Lower(d)[|d| - 7..] == if c == '/' then "path/to" else "path\\to"
  {
    hide Contains;
    assert Lower(d + [c]) == Lower(d) + [c];
    OnlyAtEnd(Lower(d), c, "path/to/");
    OnlyAtEnd(Lower(d), c, "path\\to\\");
    OnlyAtEnd(Lower(d), c, "<");
    OnlyAtEnd(Lower(d), c, "your_file");
    OnlyAtEnd(Lower(d), c, "yourfile");
    OnlyAtEnd(Lower(d), c, "example.txt");
    OnlyAtEnd(Lower(d), c, "filename.ext");
    OnlyAtEnd(Lower(d), c, "username");
    if c == '/' {
      assert "path/to/"[..7] == "path/to";
      NewAtEnd(Lower(d), c, "path/to/");
    } else {
      assert "path\\to\\"[..7] == "path\\to";
      NewAtEnd(Lower(d), c, "path\\to\\");
    }
  }

  lemma SlashesDiffer()
    ensures "path/to" != "path\\to"
  {
    assert "path/to"[4] == '/' && "path\\to"[4] == '\\';
  }

  lemma OnlyAtEnd(d: string, c: char, word: string)
    requires word != "" && !Contains(d, word)
    ensures Contains(d + [c], word) ==> word[|word| - 1] == c
  {
    hide Contains;
    if Contains(d + [c], word) {
      NewAtEnd(d, c, word);
    }
  }

  /** One of the two separators keeps a path that is no placeholder from becoming one. */
  lemma SomeSepIsPlain(desktop: string) returns (sep: char)
    requires !LooksLikePlaceholder(desktop)
    ensures IsSep(sep) && !LooksLikePlaceholder(desktop + [sep])
  {
    hide LooksLikePlaceholder, Contains;
    sep := '/';
    if LooksLikePlaceholder(desktop + ['/']) {
      sep := '\\';
      if LooksLikePlaceholder(desktop + ['\\']) {
        NewIsSlash(desktop, '/');
        NewIsSlash(desktop, '\\');
        SlashesDiffer();
        assert false;
      }
    }
  }

  /** Resolving twice is the same as resolving once, for every requested directory, if and only
      if the desktop path is stable or itself looks like a placeholder. */
  lemma WorkDirResolvesOnceExactly(desktop: string)
    ensures (forall w :: ResolveWorkDir(ResolveWorkDir(w, desktop), desktop) == ResolveWorkDir(w, desktop))
      <==> (Stable(desktop) || LooksLikePlaceholder(desktop))
  {
    hide Substitute, Segments, Stable, LooksLikePlaceholder, ResolveWorkDir;
    EmptyIsStable();
    if Stable(desktop) || LooksLikePlaceholder(desktop) {
      forall w ensures ResolveWorkDir(ResolveWorkDir(w, desktop), desktop) == ResolveWorkDir(w, desktop) {
        WorkDirResolvesOnce(w, desktop);
      }
    } else if desktop == "." {
      DotResolvesTwice();
    } else {
      var sep := SomeSepIsPlain(desktop);
      UnstableResolvesTwice(desktop, sep);
    }
  }

  lemma UnstableResolvesTwice(desktop: string, sep: char)
    requires !Stable(desktop) && desktop != "." && desktop != ""
    requires IsSep(sep) && !LooksLikePlaceholder(desktop + [sep])
    ensures ResolveWorkDir("desktop" + [sep], desktop) == desktop + [sep]
    ensures ResolveWorkDir(desktop + [sep], desktop) != desktop + [sep]
  {
    hide Substitute, Segments, Stable, LooksLikePlaceholder;
    SubstituteToken(desktop, sep);
    SecondRunGrows(desktop, sep);
    PrefixIsNotInvented(desktop, [sep]);
  }

  lemma PrefixIsNotInvented(desktop: string, rest: string)
    ensures !InventedDesktop(desktop + rest, desktop)
  {
    assert Lower(desktop) <= Lower(desktop + rest);
  }

  lemma DotResolvesTwice()
    ensures ResolveWorkDir("desktop/desktop/", ".") == "./desktop/"
    ensures ResolveWorkDir("./desktop/", ".") == "./"
  {
    hide Substitute, Segments, LooksLikePlaceholder;
    DotOnce();
    DotTwice();
    PrefixIsNotInvented(".", "/desktop/");
    PrefixIsNotInvented(".", "/");
    assert "." + "/desktop/" == "./desktop/" && "." + "/" == "./";
    PlainDots();
  }

  lemma PlainDots()
    ensures !LooksLikePlaceholder("./desktop/") && !LooksLikePlaceholder("./")
  {
    hide Contains;
    assert Lower("./desktop/") == "./desktop/" && Lower("./") == "./";
    PlainText("./desktop/");
    PlainText("./");
  }

  lemma PlainText(s: string)
    requires forall c | c in s :: c != 'h' && c != '<' && c != 'y' && c != 'm' && c != 'f' && c != 'u'
    ensures !Contains(s, "path/to/") && !Contains(s, "path\\to\\") && !Contains(s, "<") && !Contains(s, "your_file")
    ensures !Contains(s, "yourfile") && !Contains(s, "example.txt") && !Contains(s, "filename.ext")
      && !Contains(s, "username")
  {
    hide Contains;
    LacksWord(s, "path/to/", 3);
    LacksWord(s, "path\\to\\", 3);
    LacksWord(s, "<", 0);
    LacksWord(s, "your_file", 0);
    LacksWord(s, "yourfile", 0);
    LacksWord(s, "example.txt", 3);
    LacksWord(s, "filename.ext", 0);
    LacksWord(s, "username", 0);
  }

  lemma LacksWord(s: string, word: string, j: nat)
    requires j < |word| && word[j] !in s
    ensures !Contains(s, word)
  {
    forall k: nat ensures !Occurs(s, word, k) {
      if k + |word| <= |s| {
        assert s[k..k + |word|][j] == s[k + j];
      }
    }
    FindNothing(s, word, 0);
  }

  /** The part of `precheck_and_resolve_gated_call` for run_command and run_ffmpeg: the
      arguments to propose, or None when the call fails outright. */
  function PrecheckCommand(arguments: string, field: string, desktop: string): Option<string> {
    if LooksLikePlaceholder(StringField(arguments, field, 0)) then None
    else
      var requested := StringField(arguments, "work_dir", 0);
      var resolved := ResolveWorkDir(requested, desktop);
      if resolved != requested && requested != "" then Some(ReplaceStringField(arguments, "work_dir", resolved))
      else Some(arguments)
  }

  /** The working directory the command then runs in, from the arguments of the approved call. */
  function ExecutedWorkDir(arguments: string, desktop: string): string {
    ResolveWorkDir(StringField(arguments, "work_dir", 0), desktop)
  }

  /** The text of the command that then runs, from the arguments of the approved call; None when
      the tool refuses it. */
  function ExecutedCommand(arguments: string, field: string, desktop: string): Option<string> {
    var requested := StringField(arguments, field, 0);
    if requested == "" || LooksLikePlaceholder(requested) then None
    else Some(Substitute(requested, desktop))
  }

  /** A working directory shown at approval is the one the command runs in. The rewriting leaves
      the command text of the proposal alone; the tool itself may still change it. */
  lemma ApprovedWorkDirIsUsed(ts: seq<Token>, field: string, desktop: string)
    requires WellFormed(ts) && IsKey(field) && field != "work_dir"
    requires Stable(desktop) || LooksLikePlaceholder(desktop)
    requires Lookup(ts, "work_dir").Some? && Lookup(ts, "work_dir").value.Str?
      && Lookup(ts, "work_dir").value.text != ""
    requires !LooksLikePlaceholder(StringField(Render(ts), field, 0))
    ensures var proposed := PrecheckCommand(Render(ts), field, desktop);
      && proposed.Some?
      && StringField(proposed.value, "work_dir", 0) == ResolveWorkDir(Lookup(ts, "work_dir").value.text, desktop)
      && ExecutedWorkDir(proposed.value, desktop) == StringField(proposed.value, "work_dir", 0)
      && StringField(proposed.value, field, 0) == StringField(Render(ts), field, 0)
  {
    hide StringField, ResolveWorkDir, LooksLikePlaceholder, ReplaceStringField, Stable, Render, WellFormed;
    var requested := Lookup(ts, "work_dir").value.text;
    assert IsKey("work_dir");
    StringLookup(ts, "work_dir");
    WorkDirResolvesOnce(requested, desktop);
    ReplaceIsLens(ts, "work_dir", ResolveWorkDir(requested, desktop), "", field);
  }

  /** The command text shown at approval is the one requested. What runs is that text with its
      bare desktop tokens replaced, so it is the approved text if and only if the substitution
      leaves that text alone. */
  lemma ApprovedCommandIsRunExactly(ts: seq<Token>, field: string, desktop: string)
    requires WellFormed(ts) && IsKey(field) && field != "work_dir" && HasValue(ts, "work_dir")
    ensures var command := StringField(Render(ts), field, 0);
      var proposed := PrecheckCommand(Render(ts), field, desktop);
      && (proposed.Some? <==> !LooksLikePlaceholder(command))
      && (proposed.Some? ==>
        && StringField(proposed.value, field, 0) == command
        && (ExecutedCommand(proposed.value, field, desktop).None? <==> command == "")
        && (ExecutedCommand(proposed.value, field, desktop) == Some(command)
            <==> command != "" && LeavesAlone(command, desktop)))
  {
    hide StringField, ResolveWorkDir, LooksLikePlaceholder, ReplaceStringField, Render, WellFormed, LeavesAlone,
      Substitute;
    var command := StringField(Render(ts), field, 0);
    var resolved := ResolveWorkDir(StringField(Render(ts), "work_dir", 0), desktop);
    assert IsKey("work_dir");
    WorkDirIsFramed(ts, field, resolved);
    UntouchedExactly(command, desktop);
  }

  lemma WorkDirIsFramed(ts: seq<Token>, field: string, resolved: string)
    requires WellFormed(ts) && IsKey(field) && field != "work_dir" && HasValue(ts, "work_dir")
    ensures StringField(ReplaceStringField(Render(ts), "work_dir", resolved), field, 0)
      == StringField(Render(ts), field, 0)
  {
    hide StringField, ReplaceStringField, Render, WellFormed, HasValue, Lookup, Put;
    assert IsKey("work_dir");
    ReplaceIsPut(ts, "work_dir", resolved);
    PutKeepsForm(ts, "work_dir", resolved);
    PutFrame(ts, "work_dir", resolved, field);
    StringLookup(ts, field);
    StringLookup(Put(ts, "work_dir", resolved), field);
  }

  /** The person approves `del desktop/a.txt`; what runs names the real desktop. */
  lemma ApprovedCommandMayChange(ts: seq<Token>)
    requires WellFormed(ts) && HasValue(ts, "work_dir")
    requires Lookup(ts, "command") == Some(Str("del desktop/a.txt"))
    ensures var desktop := "C:\\Users\\x\\Desktop";
      var proposed := PrecheckCommand(Render(ts), "command", desktop);
      && proposed.Some?
      && StringField(proposed.value, "command", 0) == "del desktop/a.txt"
      && ExecutedCommand(proposed.value, "command", desktop) == Some("del C:\\Users\\x\\Desktop/a.txt")
  {
    hide StringField, PrecheckCommand, LooksLikePlaceholder, Render, WellFormed, HasValue, Lookup, LeavesAlone,
      Substitute;
    assert IsKey("command");
    StringLookup(ts, "command");
    DeleteIsPlain();
    ApprovedCommandIsRunExactly(ts, "command", "C:\\Users\\x\\Desktop");
    DeleteIsRewritten();
  }

  lemma DeleteIsRewritten()
    ensures Substitute("del desktop/a.txt", "C:\\Users\\x\\Desktop") == "del C:\\Users\\x\\Desktop/a.txt"
  {
    hide Substitute, Lead, PlainHit;
    DeleteHasOneToken();
    SubstituteInside("del ", "a.txt", "C:\\Users\\x\\Desktop");
    assert "del " + "desktop/" + "a.txt" == "del desktop/a.txt";
    assert "del " + ("C:\\Users\\x\\Desktop" + "/") + "a.txt" == "del C:\\Users\\x\\Desktop/a.txt";
  }

  lemma LowerIsLow(s: string)
    requires forall c | c in s :: !IsUpper(c)
    ensures Lower(s) == s
  {
  }

  lemma DeleteHasOneToken()
    ensures var s := "del " + "desktop/" + "a.txt";
      Lead(s) == 0 && forall p | 0 <= p < 4 :: !PlainHit(s, p)
  {
    var s := "del " + "desktop/" + "a.txt";
    assert s == "del desktop/a.txt";
    forall p | 0 <= p < 4 ensures !TokenAt(s, p) {
      var word := Lower(s[p..p + 7]);
      assert word[0] == LowerChar(s[p]) && word[2] == LowerChar(s[p + 2]);
      assert "desktop"[0] == 'd' && "desktop"[2] == 's';
    }
  }

  lemma DeleteIsPlain()
    ensures !LooksLikePlaceholder("del desktop/a.txt")
  {
    hide Contains;
    LowerIsLow("del desktop/a.txt");
    PlainText("del desktop/a.txt");
  }

  // ---- the paths of the filesystem tools ----------------------------------------------------

  function ResolvePath(path: string, desktop: string): string {
    DefaultBareFilename(Substitute(path, desktop), desktop)
  }

  /** `std::filesystem::absolute`, None when it reports an error or an empty path. */
  type Absolute = string -> Option<string>

  /** The arguments as shown, one path field of them made absolute. */
  function ShownField(json: string, field: string, desktop: string, absolute: Absolute): string {
    var raw := StringField(json, field, 0);
    if raw == "" || LooksLikePlaceholder(raw) then json
    else
      var resolved := ResolvePath(raw, desktop);
      if InventedDesktop(resolved, desktop) then json
      else match absolute(resolved)
        case None => json
        case Some(full) => ReplaceStringField(json, field, full)
  }

  function DisplayArguments(tool: string, arguments: string, desktop: string, absolute: Absolute): string {
    if tool == "write_file" || tool == "delete_file" || tool == "create_directory" then
      ShownField(arguments, "path", desktop, absolute)
    else if tool == "copy_file" || tool == "move_path" then
      ShownField(ShownField(arguments, "source_path", desktop, absolute), "destination_path", desktop, absolute)
    else if tool == "open_application" then
      var raw := StringField(arguments, "path_or_name", 0);
      if raw == "" || !LooksLikePath(raw) then arguments
      else match absolute(raw)
        case None => arguments
        case Some(full) => ReplaceStringField(arguments, "path_or_name", full)
    else arguments
  }

  predicate LooksLikePath(value: string) {
    Contains(value, "\\") || Contains(value, "/")
  }

  /** The path a filesystem tool works on, or None when its guards reject the call. */
  function ExecutedPath(json: string, field: string, desktop: string): Option<string> {
    var raw := StringField(json, field, 0);
    if LooksLikePlaceholder(raw) then None
    else
      var resolved := ResolvePath(raw, desktop);
      if InventedDesktop(resolved, desktop) then None else Some(resolved)
  }

  /** One path field: rejected calls are shown as given; otherwise the shown path is the
      absolute form of the executed one. Nothing else in the arguments changes. */
  lemma ShownFieldIsExecuted(ts: seq<Token>, field: string, other: string, desktop: string, absolute: Absolute)
    requires WellFormed(ts) && IsKey(field) && IsKey(other) && other != field
    requires Lookup(ts, field).Some? && Lookup(ts, field).value.Str? && Lookup(ts, field).value.text != ""
    ensures var json, shown := Render(ts), ShownField(Render(ts), field, desktop, absolute);
      var executed := ExecutedPath(Render(ts), field, desktop);
      && (executed.None? ==> shown == json)
      && (executed.Some? && absolute(executed.value).Some? ==>
        StringField(shown, field, 0) == absolute(executed.value).value)
      && StringField(shown, other, 0) == StringField(json, other, 0)
      && ExecutedPath(shown, other, desktop) == ExecutedPath(json, other, desktop)
  {
    hide StringField, ResolvePath, LooksLikePlaceholder, InventedDesktop, ReplaceStringField, Render, WellFormed, IsKey;
    StringLookup(ts, field);
    var raw := Lookup(ts, field).value.text;
    var resolved := ResolvePath(raw, desktop);
    var full := absolute(resolved);
    if full.Some? {
      ReplaceIsLens(ts, field, full.value, "", other);
    }
  }

  /** The shown text is again a well-formed document in which other keys read as before. */
  lemma ShownFieldIsDocument(ts: seq<Token>, field: string, desktop: string,
                             absolute: Absolute) returns (us: seq<Token>)
    requires WellFormed(ts) && IsKey(field)
    requires Lookup(ts, field).Some? && Lookup(ts, field).value.Str?
    ensures WellFormed(us) && Render(us) == ShownField(Render(ts), field, desktop, absolute)
    ensures forall other | other != field :: Lookup(us, other) == Lookup(ts, other)
  {
    hide StringField, ResolvePath, LooksLikePlaceholder, InventedDesktop, ReplaceStringField, Render, WellFormed, IsKey,
      Lookup, Put;
    var json := Render(ts);
    us := ts;
    if ShownField(json, field, desktop, absolute) != json {
      var full := absolute(ResolvePath(StringField(json, field, 0), desktop)).value;
      us := Put(ts, field, full);
      ReplaceIsPut(ts, field, full);
      PutKeepsForm(ts, field, full);
      forall other | other != field ensures Lookup(us, other) == Lookup(ts, other) {
        PutFrame(ts, field, full, other);
      }
    }
  }

  /** Both paths of copy_file and move_path are shown as they are then used. */
  lemma ShownPairIsExecuted(ts: seq<Token>, tool: string, desktop: string, absolute: Absolute)
    requires tool == "copy_file" || tool == "move_path"
    requires WellFormed(ts)
    requires Lookup(ts, "source_path").Some? && Lookup(ts, "source_path").value.Str?
      && Lookup(ts, "source_path").value.text != ""
    requires Lookup(ts, "destination_path").Some? && Lookup(ts, "destination_path").value.Str?
      && Lookup(ts, "destination_path").value.text != ""
    ensures var shown := DisplayArguments(tool, Render(ts), desktop, absolute);
      var source, destination := ExecutedPath(Render(ts), "source_path", desktop),
        ExecutedPath(Render(ts), "destination_path", desktop);
      && (source.Some? && absolute(source.value).Some? ==>
        StringField(shown, "source_path", 0) == absolute(source.value).value)
      && (destination.Some? && absolute(destination.value).Some? ==>
        StringField(shown, "destination_path", 0) == absolute(destination.value).value)
  {
    hide StringField, ResolvePath, LooksLikePlaceholder, InventedDesktop, ReplaceStringField, Render, WellFormed,
      Lookup, ShownField, ExecutedPath;
    PathKeys();
    var us := ShownFieldIsDocument(ts, "source_path", desktop, absolute);
    ShownFieldIsExecuted(ts, "source_path", "destination_path", desktop, absolute);
    ShownFieldIsExecuted(us, "destination_path", "source_path", desktop, absolute);
  }

  lemma PathKeys()
    ensures IsKey("source_path") && IsKey("destination_path") && IsKey("path") && "source_path" != "destination_path"
  {
  }
}

/** What the path guards do to a text, in terms of its characters alone: which texts are rewritten
    and how, which paths are refused, and which path each tool then uses or shows. */
module PathOutcomes {
  import opened Text
  import opened JsonCodec
  import opened JsonTokens
  import opened JsonLookup
  import JsonLens
  import opened PathGuards
  import opened ApprovalPaths

  // ---- the characters -----------------------------------------------------------------------

  /** Letters lose their case, and nothing else changes. */
  lemma LowerCases(c: char)
    ensures forall i | 0 <= i < 26 ::
      LowerChar("ABCDEFGHIJKLMNOPQRSTUVWXYZ"[i]) == "abcdefghijklmnopqrstuvwxyz"[i]
    ensures c !in "ABCDEFGHIJKLMNOPQRSTUVWXYZ" ==> LowerChar(c) == c
  {
    var letters := "ABCDEFGHIJKLMNOPQRSTUVWXYZ";
    if IsUpper(c) {
      assert letters[(c as int) - ('A' as int)] == c;
    }
  }

  /** The letter `c` is the letter `low`, in either case. */
  predicate Spells(c: char, low: char) {
    c == low || (c in "DESKTOP" && low in "desktop" && (c as int) + 32 == (low as int))
  }

  predicate IsSlash(c: char) { c in {'/', '\\'} }

  /** The word desktop, in any case, and a slash stand at `p`. */
  predicate WordAt(s: string, p: nat) {
    && p + 8 <= |s| && IsSlash(s[p + 7])
    && Spells(s[p], 'd') && Spells(s[p + 1], 'e') && Spells(s[p + 2], 's') && Spells(s[p + 3], 'k')
    && Spells(s[p + 4], 't') && Spells(s[p + 5], 'o') && Spells(s[p + 6], 'p')
  }

  /** It begins the text, or stands behind a blank or a quotation mark. */
  predicate PathAt(s: string, p: nat) {
    WordAt(s, p) && (p == 0 || s[p - 1] in {' ', '"', '\''})
  }

  /** A slash, or a dot and a slash, begin the text, and the word follows. */
  predicate SlashFirst(s: string, k: nat) {
    || (k == 1 && WordAt(s, 1) && IsSlash(s[0]))
    || (k == 2 && WordAt(s, 2) && s[0] == '.' && IsSlash(s[1]))
  }

  lemma SpellsIs(c: char, low: char)
    requires low in "desktop"
    ensures Spells(c, low) <==> LowerChar(c) == low
  {
    var letters := "DESKTOP";
    assert letters[0] == 'D' && letters[1] == 'E' && letters[2] == 'S' && letters[3] == 'K';
    assert letters[4] == 'T' && letters[5] == 'O' && letters[6] == 'P';
  }

  lemma TokensAreThese(s: string, p: nat)
    ensures TokenAt(s, p) <==> WordAt(s, p)
  {
    hide Spells;
    if p + 8 <= |s| {
      var word := s[p..p + 7];
      assert word[0] == s[p] && word[1] == s[p + 1] && word[2] == s[p + 2] && word[3] == s[p + 3];
      assert word[4] == s[p + 4] && word[5] == s[p + 5] && word[6] == s[p + 6];
      WordIsSpelled(word);
    }
  }

  lemma WordIsSpelled(word: string)
    requires |word| == 7
    ensures Lower(word) == "desktop" <==>
      && Spells(word[0], 'd') && Spells(word[1], 'e') && Spells(word[2], 's') && Spells(word[3], 'k')
      && Spells(word[4], 't') && Spells(word[5], 'o') && Spells(word[6], 'p')
  {
    hide Spells;
    var low := "desktop";
    assert low[0] == 'd' && low[1] == 'e' && low[2] == 's' && low[3] == 'k';
    assert low[4] == 't' && low[5] == 'o' && low[6] == 'p';
    forall i | 0 <= i < 7 ensures Spells(word[i], low[i]) <==> Lower(word)[i] == low[i] {
      assert low[i] in low;
      SpellsIs(word[i], low[i]);
    }
  }

  lemma HitsAreThese(s: string)
    ensures forall p | 0 <= p <= |s| :: PlainHit(s, p) <==> PathAt(s, p)
    ensures Lead(s) == if SlashFirst(s, 1) then 1 else if SlashFirst(s, 2) then 2 else 0
  {
    hide TokenAt, WordAt;
    forall p | 0 <= p <= |s| ensures PlainHit(s, p) <==> PathAt(s, p) {
      TokensAreThese(s, p);
    }
    TokensAreThese(s, 1);
    TokensAreThese(s, 2);
    WordIsBehind(s);
  }

  lemma WordIsBehind(s: string)
    ensures WordAt(s, 1) ==> |s| > 1
    ensures WordAt(s, 2) ==> |s| > 2
  {
  }

  // ---- what the substitution writes ---------------------------------------------------------

  predicate NoPathFrom(s: string, from: nat) {
    forall p | from <= p <= |s| :: !PathAt(s, p)
  }

  lemma TailCopied(s: string, desktop: string, from: nat)
    requires from <= |s| && NoPathFrom(s, from)
    ensures Tail(s, desktop, from) == s[from..]
  {
    hide PlainHit, PathAt;
    HitsAreThese(s);
    CopyRun(s, desktop, from, |s| - from);
    TailLength(s, desktop, |s|);
    assert s[from..|s|] + "" == s[from..];
  }

  /** Text without a token, and any text when there is no desktop path, stays as it is. */
  lemma NothingIsRewritten(s: string, desktop: string)
    requires desktop == "" || (NoPathFrom(s, 0) && !SlashFirst(s, 1) && !SlashFirst(s, 2))
    ensures Substitute(s, desktop) == s
  {
    hide PathAt, Tail;
    if desktop != "" {
      HitsAreThese(s);
      TailCopied(s, desktop, 0);
    }
  }

  /** Each token that begins a path becomes the desktop path; its own slash stays, and so does
      everything around it. What follows is treated in the same way. */
  lemma TokenIsRewritten(s: string, desktop: string, p: nat, q: nat)
    requires desktop != "" && PathAt(s, p) && !SlashFirst(s, 1) && !SlashFirst(s, 2)
    requires forall k | 0 <= k < p :: !PathAt(s, k)
    requires p + 8 <= q <= |s| && forall k | p + 8 <= k < q :: !PathAt(s, k)
    requires q == |s| || PathAt(s, q)
    ensures q == |s| ==> Substitute(s, desktop) == s[..p] + desktop + s[p + 7..]
    ensures q < |s| && NoPathFrom(s, q + 8) && q + 8 <= |s| ==>
      Substitute(s, desktop) == s[..p] + desktop + s[p + 7..q] + desktop + s[q + 7..]
  {
    hide PathAt, WordAt, Tail, PlainHit;
    HitsAreThese(s);
    PathFits(s, p);
    RunThenToken(s, desktop, 0, p);
    if q == |s| {
      CopyRun(s, desktop, p + 8, q - (p + 8));
      TailLength(s, desktop, q);
      assert s[p + 7..] == [s[p + 7]] + s[p + 8..q];
      assert s[..p] == s[0..p];
      assert s[0..p] + (desktop + [s[p + 7]] + (s[p + 8..q] + "")) == s[..p] + desktop + s[p + 7..];
    } else if NoPathFrom(s, q + 8) && q + 8 <= |s| {
      RunThenToken(s, desktop, p + 8, q);
      TailCopied(s, desktop, q + 8);
      assert s[p + 7..q] == [s[p + 7]] + s[p + 8..q];
      assert s[q + 7..] == [s[q + 7]] + s[q + 8..];
      assert s[0..p] == s[..p];
      assert s[0..p] + (desktop + [s[p + 7]] + (s[p + 8..q] + (desktop + [s[q + 7]] + s[q + 8..])))
        == s[..p] + desktop + s[p + 7..q] + desktop + s[q + 7..];
    }
  }

  /** Text in two parts, the first ending in a blank or a quotation mark: each is treated on its own.
      So any number of words is rewritten, or left alone, one by one. */
  lemma PartsAreRewrittenApart(a: string, b: string, desktop: string)
    requires a != "" && a[|a| - 1] in {' ', '"', '\''} && !SlashFirst(b, 1) && !SlashFirst(b, 2)
    ensures Substitute(a + b, desktop) == Substitute(a, desktop) + Substitute(b, desktop)
  {
    hide Substitute, Lead, Tail, SlashFirst;
    if desktop != "" {
      HitsAreThese(b);
      var k := Lead(a);
      LeadOfParts(a, b);
      SubstituteIs(a, desktop);
      SubstituteIs(b, desktop);
      SubstituteIs(a + b, desktop);
      if k > 0 {
        TailOfParts(a, b, desktop, k + 8);
        Associate(desktop + [a[k + 7]], Tail(a, desktop, k + 8), Tail(b, desktop, 0));
      } else {
        TailOfParts(a, b, desktop, 0);
      }
    } else {
      SubstitutesNothing(a);
      SubstitutesNothing(b);
      SubstitutesNothing(a + b);
    }
  }

  lemma SubstituteIs(s: string, desktop: string)
    requires desktop != ""
    ensures var k := Lead(s);
      && (k > 0 ==> k + 8 <= |s|)
      && Substitute(s, desktop)
        == if k > 0 then desktop + [s[k + 7]] + Tail(s, desktop, k + 8) else Tail(s, desktop, 0)
  {
    hide Tail, Lead;
    TokenFitsLead(s);
  }

  lemma SubstitutesNothing(s: string)
    ensures Substitute(s, "") == s
  {
  }

  lemma LeadOfParts(a: string, b: string)
    requires a != "" && a[|a| - 1] in {' ', '"', '\''}
    ensures Lead(a + b) == Lead(a)
  {
    hide TokenAt;
    var s := a + b;
    assert s[0] == a[0] && (|a| > 1 ==> s[1] == a[1]);
    TokenOfPart(a, b, 1);
    TokenOfPart(a, b, 2);
    if |a| <= 2 {
      NoTokenAcross(a, 1);
      NoTokenAcross(a, 2);
    }
    if |a| == 1 {
      assert s[0] != '.' && !IsSep(s[0]);
    } else if |a| == 2 {
      assert !IsSep(s[1]);
    }
  }

  /** A token is short text without a break, so it never lies across the end of the first part. */
  lemma TokenOfPart(a: string, b: string, p: nat)
    requires a != "" && a[|a| - 1] in {' ', '"', '\''}
    ensures p < |a| ==> (TokenAt(a + b, p) <==> TokenAt(a, p))
    ensures p >= |a| ==> (TokenAt(a + b, p) <==> TokenAt(b, p - |a|))
  {
    var s := a + b;
    assert s[|a| - 1] == a[|a| - 1];
    if p >= |a| {
      if p + 8 <= |s| {
        assert s[p..p + 7] == b[p - |a|..p - |a| + 7];
      }
    } else if p + 8 <= |a| {
      assert s[p..p + 7] == a[p..p + 7];
    } else if TokenAt(s, p) {
      TokenFirst(s, p);
    }
  }

  lemma NoTokenAcross(a: string, p: nat)
    requires |a| < p + 8
    ensures !TokenAt(a, p)
  {
  }

  lemma HitOfPart(a: string, b: string, p: nat)
    requires a != "" && a[|a| - 1] in {' ', '"', '\''} && p <= |a + b|
    ensures p < |a| ==> (PlainHit(a + b, p) <==> PlainHit(a, p))
    ensures p >= |a| ==> (PlainHit(a + b, p) <==> PlainHit(b, p - |a|))
  {
    hide TokenAt;
    TokenOfPart(a, b, p);
    if 0 < p < |a| {
      assert (a + b)[p - 1] == a[p - 1];
    } else if p == |a| {
      assert (a + b)[p - 1] == a[|a| - 1];
    } else if p > |a| {
      assert (a + b)[p - 1] == b[p - |a| - 1];
    }
  }

  lemma {:induction false} TailOfParts(a: string, b: string, desktop: string, c: nat)
    requires a != "" && a[|a| - 1] in {' ', '"', '\''} && c <= |a|
    ensures Tail(a + b, desktop, c) == Tail(a, desktop, c) + Tail(b, desktop, 0)
    decreases |a| - c
  {
    hide TokenAt, PlainHit, Tail;
    if c == |a| {
      TailOfSecond(a, b, desktop, 0);
      TailLength(a, desktop, c);
      assert "" + Tail(b, desktop, 0) == Tail(b, desktop, 0);
    } else {
      HitOfPart(a, b, c);
      if PlainHit(a, c) {
        HitRewrites(a, desktop, c);
        HitRewrites(a + b, desktop, c);
        TailOfParts(a, b, desktop, c + 8);
        Associate(desktop + [a[c + 7]], Tail(a, desktop, c + 8), Tail(b, desktop, 0));
      } else {
        CopyOne(a, desktop, c);
        CopyOne(a + b, desktop, c);
        TailOfParts(a, b, desktop, c + 1);
        Associate([a[c]], Tail(a, desktop, c + 1), Tail(b, desktop, 0));
      }
    }
  }

  lemma HitRewrites(s: string, desktop: string, p: nat)
    requires PlainHit(s, p)
    ensures p + 8 <= |s| && Tail(s, desktop, p) == desktop + [s[p + 7]] + Tail(s, desktop, p + 8)
  {
    hide Tail;
    ReplaceToken(s, desktop, p);
  }

  lemma {:induction false} TailOfSecond(a: string, b: string, desktop: string, c: nat)
    requires a != "" && a[|a| - 1] in {' ', '"', '\''} && c <= |b|
    ensures Tail(a + b, desktop, |a| + c) == Tail(b, desktop, c)
    decreases |b| - c
  {
    hide TokenAt, PlainHit, Tail;
    if c < |b| {
      HitOfPart(a, b, |a| + c);
      if PlainHit(b, c) {
        HitRewrites(b, desktop, c);
        HitRewrites(a + b, desktop, |a| + c);
        TailOfSecond(a, b, desktop, c + 8);
      } else {
        CopyOne(b, desktop, c);
        CopyOne(a + b, desktop, |a| + c);
        TailOfSecond(a, b, desktop, c + 1);
      }
    } else {
      TailLength(b, desktop, c);
      TailLength(a + b, desktop, |a| + c);
    }
  }

  lemma PathFits(s: string, p: nat)
    requires PathAt(s, p)
    ensures p + 8 <= |s|
  {
  }

  lemma RunThenToken(s: string, desktop: string, from: nat, p: nat)
    requires from <= p && p + 8 <= |s| && PathAt(s, p) && forall k | from <= k < p :: !PathAt(s, k)
    ensures Tail(s, desktop, from) == s[from..p] + (desktop + [s[p + 7]] + Tail(s, desktop, p + 8))
  {
    hide PathAt, PlainHit, Tail;
    HitsAreThese(s);
    CopyRun(s, desktop, from, p - from);
    assert TokenAt(s, p) by { HitByParts(s, p); }
    ReplaceToken(s, desktop, p);
  }

  /** A token behind a slash, or a dot and a slash, that begin the text: they go with it. */
  lemma SlashIsDropped(s: string, desktop: string, k: nat)
    requires desktop != "" && SlashFirst(s, k) && k + 8 <= |s| && NoPathFrom(s, k + 8)
    ensures Substitute(s, desktop) == desktop + s[k + 7..]
  {
    hide PathAt, WordAt, Tail;
    HitsAreThese(s);
    OneSlashFirst(s, k);
    TailCopied(s, desktop, k + 8);
    assert s[k + 7..] == [s[k + 7]] + s[k + 8..];
  }

  lemma OneSlashFirst(s: string, k: nat)
    requires SlashFirst(s, k)
    ensures k == 2 ==> !SlashFirst(s, 1)
  {
  }

  // ---- which paths are refused --------------------------------------------------------------

  /** A path is a placeholder exactly when one of eight words occurs in it, in any letter case. */
  lemma PlaceholdersAreThese(path: string)
    ensures LooksLikePlaceholder(path) <==>
      exists word, i | word in {"path/to/", "path\\to\\", "<", "your_file", "yourfile", "example.txt", "filename.ext",
        "username"} :: Occurs(Lower(path), word, i)
  {
    hide Occurs;
    var s := Lower(path);
    ContainsIs(s, "path/to/");
    ContainsIs(s, "path\\to\\");
    ContainsIs(s, "<");
    ContainsIs(s, "your_file");
    ContainsIs(s, "yourfile");
    ContainsIs(s, "example.txt");
    ContainsIs(s, "filename.ext");
    ContainsIs(s, "username");
  }

  lemma ContainsIs(s: string, word: string)
    ensures Contains(s, word) <==> exists i :: Occurs(s, word, i)
  {
    if Contains(s, word) {
      FindFound(s, word, 0);
    }
    if i :| Occurs(s, word, i) {
      OccursIsFound(s, word, i);
    }
  }

  /** A directory called desktop stands in the text: bounded by slashes or the ends. */
  predicate DesktopFolder(s: string, i: nat) {
    && i + 7 <= |s| && s[i..i + 7] == "desktop"
    && (i == 0 || IsSlash(s[i - 1])) && (i + 7 == |s| || IsSlash(s[i + 7]))
  }

  /** A path is invented exactly when there is a real desktop, the path does not begin with it, and
      some directory in it is called desktop, all in any letter case. */
  lemma InventedAreThese(path: string, desktop: string)
    ensures InventedDesktop(path, desktop) <==>
      && desktop != ""
      && (|desktop| > |path| || exists i :: 0 <= i < |desktop| && Lower(desktop)[i] != Lower(path)[i])
      && exists i: nat :: DesktopFolder(Lower(path), i)
  {
    hide Segments, DesktopFolder, SegmentAt;
    var s, d := Lower(path), Lower(desktop);
    SegmentsAreBounded(s);
    FoldersAreThese(s);
    assert d <= s <==> |d| <= |s| && forall i | 0 <= i < |d| :: d[i] == s[i];
  }

  lemma FoldersAreThese(s: string)
    ensures (exists i :: 0 <= i < |s| && SegmentAt(s, i)) <==> exists i: nat :: DesktopFolder(s, i)
  {
    if i :| 0 <= i < |s| && SegmentAt(s, i) {
      assert DesktopFolder(s, i);
    }
    if i: nat :| DesktopFolder(s, i) {
      assert SegmentAt(s, i);
    }
  }

  // ---- the paths the tools use --------------------------------------------------------------

  /** A bare file name is put on the desktop, with one separator between; other paths stay. */
  lemma BareNameGoesToDesktop(name: string, desktop: string)
    ensures DefaultBareFilename(name, desktop) ==
      if name == "" || desktop == "" || '/' in name || '\\' in name then name
      else if desktop[|desktop| - 1] in {'/', '\\'} then desktop + name
      else desktop + "\\" + name
  {
    assert desktop + "" + name == desktop + name;
  }

  /** The directory a command runs in: the desktop when none was asked for, or when what was asked
      for is a placeholder or invented; otherwise the one asked for. */
  lemma DirectoryIsChosen(requested: string, desktop: string)
    requires NoPathFrom(requested, 0) && !SlashFirst(requested, 1) && !SlashFirst(requested, 2)
    ensures ResolveWorkDir(requested, desktop) ==
      if requested == "" || LooksLikePlaceholder(requested) || InventedDesktop(requested, desktop) then desktop
      else requested
  {
    hide NoPathFrom, LooksLikePlaceholder, InventedDesktop, Substitute;
    NothingIsRewritten(requested, desktop);
  }

  /** Without a working directory, or with one that needs no change, the call is proposed as it is. */
  lemma CommandIsProposedAsGiven(arguments: string, field: string, desktop: string)
    requires !LooksLikePlaceholder(StringField(arguments, field, 0))
    requires var dir := StringField(arguments, "work_dir", 0);
      dir == "" || (NoPathFrom(dir, 0) && !SlashFirst(dir, 1) && !SlashFirst(dir, 2)
                    && !LooksLikePlaceholder(dir) && !InventedDesktop(dir, desktop))
    ensures PrecheckCommand(arguments, field, desktop) == Some(arguments)
  {
    hide NoPathFrom, LooksLikePlaceholder, InventedDesktop, Substitute, StringField, ReplaceStringField;
    var dir := StringField(arguments, "work_dir", 0);
    if dir != "" {
      DirectoryIsChosen(dir, desktop);
    }
  }

  /** The path shown for a file to write or delete, or a directory to create, is the absolute form
      of the one then used; a rejected call is shown as given. */
  lemma ShownSingleIsExecuted(ts: seq<Token>, tool: string, desktop: string, absolute: Absolute)
    requires tool in {"write_file", "delete_file", "create_directory"}
    requires WellFormed(ts)
    requires Lookup(ts, "path").Some? && Lookup(ts, "path").value.Str? && Lookup(ts, "path").value.text != ""
    ensures var shown := DisplayArguments(tool, Render(ts), desktop, absolute);
      var executed := ExecutedPath(Render(ts), "path", desktop);
      && (executed.None? ==> shown == Render(ts))
      && (executed.Some? && absolute(executed.value).Some? ==>
        StringField(shown, "path", 0) == absolute(executed.value).value)
  {
    hide StringField, ExecutedPath, ShownField, Render, WellFormed, Lookup;
    PathKeys();
    assert "source_path" != "path";
    ShownFieldIsExecuted(ts, "path", "source_path", desktop, absolute);
  }

  /** A launch of a path shows its absolute form; a bare name, and every other tool, as given. */
  lemma OtherToolsAreShownAsGiven(arguments: string, tool: string, desktop: string, absolute: Absolute)
    requires tool !in {"write_file", "delete_file", "create_directory", "copy_file", "move_path"}
    requires tool == "open_application" ==>
      var raw := StringField(arguments, "path_or_name", 0);
      ('/' !in raw && '\\' !in raw) || absolute(raw) == None
    ensures DisplayArguments(tool, arguments, desktop, absolute) == arguments
  {
    hide StringField, ReplaceStringField, ShownField;
    if tool == "open_application" {
      var raw := StringField(arguments, "path_or_name", 0);
      if '/' !in raw && '\\' !in raw {
        LacksWord(raw, "/", 0);
        LacksWord(raw, "\\", 0);
      }
    }
  }

  lemma LaunchedPathIsShown(ts: seq<Token>, desktop: string, absolute: Absolute)
    requires WellFormed(ts)
    requires Lookup(ts, "path_or_name").Some? && Lookup(ts, "path_or_name").value.Str?
    requires var raw := Lookup(ts, "path_or_name").value.text;
      ('/' in raw || '\\' in raw) && absolute(raw).Some?
    ensures StringField(DisplayArguments("open_application", Render(ts), desktop, absolute), "path_or_name", 0)
      == absolute(Lookup(ts, "path_or_name").value.text).value
  {
    hide StringField, ReplaceStringField, ShownField, Render, WellFormed, Lookup;
    assert IsKey("path_or_name") && IsKey("path");
    var raw := Lookup(ts, "path_or_name").value.text;
    StringLookup(ts, "path_or_name");
    SlashIsContained(raw);
    JsonLens.ReplaceIsLens(ts, "path_or_name", absolute(raw).value, "", "path");
  }

  lemma SlashIsContained(raw: string)
    requires '/' in raw || '\\' in raw
    ensures LooksLikePath(raw)
  {
    if i :| 0 <= i < |raw| && raw[i] == '/' {
      assert raw[i..i + 1] == "/";
      OccursIsFound(raw, "/", i);
    } else {
      var j :| 0 <= j < |raw| && raw[j] == '\\';
      assert raw[j..j + 1] == "\\";
      OccursIsFound(raw, "\\", j);
    }
  }
}

/** The Desktop path guards of `src/reliability/path_guards.cpp`. Both run twice, once before
    the approval prompt and once at execution, so it matters when a second run changes nothing. */
module PathGuards {
  import opened Text

  predicate IsSep(c: char) { c == '/' || c == '\\' }

  /** A character after which a path may begin. */
  predicate IsBreak(c: char) { c == ' ' || c == '"' || c == '\'' }

  /** `desktop/` or `desktop\`, in any letter case, at `c`. */
  predicate TokenAt(s: string, c: nat) {
    c + 8 <= |s| && Lower(s[c..c + 7]) == "desktop" && IsSep(s[c + 7])
  }

  /** The whole text may begin with a separator, or a dot and a separator, before the token. */
  predicate LeadingAt(s: string, c: nat) {
    || (c == 1 && |s| > 0 && IsSep(s[0]))
    || (c == 2 && |s| > 1 && s[0] == '.' && IsSep(s[1]))
  }

  predicate StartsPath(s: string, c: nat)
    requires c <= |s|
  {
    c == 0 || IsBreak(s[c - 1])
  }

  predicate PlainHit(s: string, c: nat) {
    TokenAt(s, c) && StartsPath(s, c)
  }

  /** The length of the prefix dropped in front of a leading token, or 0. */
  function Lead(s: string): (k: nat)
    ensures k <= 2 && (k > 0 ==> TokenAt(s, k) && LeadingAt(s, k))
  {
    if LeadingAt(s, 1) && TokenAt(s, 1) then 1
    else if LeadingAt(s, 2) && TokenAt(s, 2) then 2
    else 0
  }

  /** `s` from `c` on with every token at a word boundary replaced. */
  function Tail(s: string, desktop: string, c: nat): string
    decreases |s| - c
  {
    if c >= |s| then ""
    else if PlainHit(s, c) then desktop + [s[c + 7]] + Tail(s, desktop, c + 8)
    else [s[c]] + Tail(s, desktop, c + 1)
  }

  function Substitute(args: string, desktop: string): string {
    if desktop == "" then args
    else
      var k := Lead(args);
      if k > 0 then desktop + [args[k + 7]] + Tail(args, desktop, k + 8)
      else Tail(args, desktop, 0)
  }

  // ---- the loop --------------------------------------------------------------------

  lemma TokenFirst(s: string, c: nat)
    requires TokenAt(s, c)
    ensures forall i | c <= i < c + 7 :: !IsSep(s[i]) && !IsBreak(s[i]) && s[i] != '.'
    ensures IsSep(s[c + 7])
  {
    forall i | c <= i < c + 7 ensures !IsSep(s[i]) && !IsBreak(s[i]) && s[i] != '.' {
      assert s[c..c + 7][i - c] == s[i];
      assert LowerChar(s[i]) == "desktop"[i - c];
    }
  }

  lemma TailLength(s: string, desktop: string, c: nat)
    ensures c >= |s| ==> Tail(s, desktop, c) == ""
  {
  }

  lemma CopyOne(s: string, desktop: string, o: nat)
    requires o < |s| && !PlainHit(s, o)
    ensures Tail(s, desktop, o) == [s[o]] + Tail(s, desktop, o + 1)
  {
  }

  lemma ReplaceToken(s: string, desktop: string, o: nat)
    requires TokenAt(s, o)
    ensures PlainHit(s, o) ==> Tail(s, desktop, o) == desktop + [s[o + 7]] + Tail(s, desktop, o + 8)
  {
  }

  lemma HitByParts(s: string, c: nat)
    requires c <= |s|
    ensures PlainHit(s, c) <==> TokenAt(s, c) && StartsPath(s, c)
  {
  }

  /** A token found by the loop is the leading one or a plain one, never both. */
  lemma LoopHit(s: string, c: nat)
    requires TokenAt(s, c) && (StartsPath(s, c) || LeadingAt(s, c))
    ensures LeadingAt(s, c) ==> Lead(s) == c && c > 0
    ensures !LeadingAt(s, c) ==> PlainHit(s, c) && (Lead(s) > 0 ==> c > Lead(s))
    ensures c + 8 <= |s|
  {
    TokenFirst(s, c);
    if Lead(s) > 0 {
      TokenFirst(s, Lead(s));
    }
  }

  lemma LoopMiss(s: string, c: nat)
    requires c < |s| && !(TokenAt(s, c) && (StartsPath(s, c) || LeadingAt(s, c)))
    ensures !PlainHit(s, c) && (c > 0 ==> c != Lead(s))
  {
  }

  /** What is written so far, and the rest of the input, make up the result. */
  predicate Progress(s: string, desktop: string, c: nat, written: string) {
    written + Tail(s, desktop, c) == Substitute(s, desktop)
  }

  lemma ProgressStarts(s: string, desktop: string)
    requires desktop != ""
    ensures Lead(s) == 0 ==> Progress(s, desktop, 0, "")
  {
    assert "" + Tail(s, desktop, 0) == Tail(s, desktop, 0);
  }

  lemma ProgressLeads(s: string, desktop: string, c: nat)
    requires desktop != "" && c > 0 && Lead(s) == c
    ensures Progress(s, desktop, c + 8, desktop + [s[c + 7]])
  {
  }

  lemma ProgressHits(s: string, desktop: string, c: nat, written: string)
    requires PlainHit(s, c) && Progress(s, desktop, c, written)
    ensures Progress(s, desktop, c + 8, written + (desktop + [s[c + 7]]))
  {
    ReplaceToken(s, desktop, c);
  }

  lemma ProgressCopies(s: string, desktop: string, c: nat, written: string)
    requires c < |s| && !PlainHit(s, c)
    ensures Progress(s, desktop, c, written) ==> Progress(s, desktop, c + 1, written + [s[c]])
  {
    CopyOne(s, desktop, c);
  }

  lemma ProgressEnds(s: string, desktop: string, written: string)
    requires Progress(s, desktop, |s|, written)
    ensures written == Substitute(s, desktop)
  {
    TailLength(s, desktop, |s|);
  }

  /** `result.resize(result.size() - n)`. */
  function DropLast(s: string, n: nat): (r: string)
    requires n <= |s|
    ensures n == |s| ==> r == ""
  {
    s[..|s| - n]
  }

  /** Up to a leading token everything was copied; behind it, progress is made. */
  predicate Halfway(s: string, desktop: string, c: nat, written: string) {
    var k := Lead(s);
    && c <= |s|
    && (k > 0 && c <= k ==> |written| == c)
    && (k > 0 && c > k ==> c >= k + 8)
    && (k == 0 || c > k ==> Progress(s, desktop, c, written))
  }

  function AfterToken(s: string, desktop: string, c: nat, written: string): string
    requires c + 8 <= |s|
  {
    (if LeadingAt(s, c) && |written| >= c then DropLast(written, c) else written) + (desktop + [s[c + 7]])
  }

  lemma HalfwayToken(s: string, desktop: string, c: nat, written: string)
    requires desktop != "" && Halfway(s, desktop, c, written)
    requires TokenAt(s, c) && (StartsPath(s, c) || LeadingAt(s, c))
    ensures c + 8 <= |s| && Halfway(s, desktop, c + 8, AfterToken(s, desktop, c, written))
  {
    hide Progress, PlainHit, Lead, Substitute, TokenAt, StartsPath, LeadingAt, DropLast;
    LoopHit(s, c);
    if LeadingAt(s, c) {
      ProgressLeads(s, desktop, c);
      DropAll(written, desktop + [s[c + 7]]);
    } else {
      ProgressHits(s, desktop, c, written);
    }
  }

  lemma DropAll(written: string, inserted: string)
    ensures DropLast(written, |written|) + inserted == inserted
  {
  }

  lemma HalfwayCopy(s: string, desktop: string, c: nat, written: string)
    requires c < |s| && Halfway(s, desktop, c, written)
    requires !(TokenAt(s, c) && (StartsPath(s, c) || LeadingAt(s, c)))
    ensures Halfway(s, desktop, c + 1, written + [s[c]])
  {
    hide Progress, PlainHit, Lead, Substitute, TokenAt, StartsPath, LeadingAt;
    LoopMiss(s, c);
    if Lead(s) == 0 || c > Lead(s) {
      ProgressCopies(s, desktop, c, written);
    } else {
      assert c != Lead(s) || c == 0;
    }
  }

  method SubstituteBareDesktopToken(args: string, desktop: string) returns (result: string)
    ensures result == Substitute(args, desktop)
  {
    if desktop == "" { return args; }
    hide Progress, Halfway, PlainHit, Lead, Substitute, TokenAt, StartsPath, LeadingAt, DropLast;
    result := "";
    var cursor := 0;
    HalfwayStarts(args, desktop);
    while cursor < |args|
      invariant cursor <= |args| && Halfway(args, desktop, cursor, result)
    {
      var leading := LeadingAt(args, cursor);
      var boundary := StartsPath(args, cursor) || leading;
      if boundary && TokenAt(args, cursor) {
        HalfwayToken(args, desktop, cursor, result);
        if leading && |result| >= cursor {
          result := DropLast(result, cursor);
        }
        result := result + (desktop + [args[cursor + 7]]);
        cursor := cursor + 8;
      } else {
        HalfwayCopy(args, desktop, cursor, result);
        result := result + [args[cursor]];
        cursor := cursor + 1;
      }
    }
    HalfwayEnds(args, desktop, result);
  }

  lemma HalfwayStarts(s: string, desktop: string)
    requires desktop != ""
    ensures Halfway(s, desktop, 0, "")
  {
    ProgressStarts(s, desktop);
  }

  lemma HalfwayEnds(s: string, desktop: string, written: string)
    requires Halfway(s, desktop, |s|, written)
    ensures written == Substitute(s, desktop)
  {
    hide Progress, Substitute;
    TokenFitsLead(s);
    ProgressEnds(s, desktop, written);
  }

  lemma TokenFitsLead(s: string)
    ensures Lead(s) > 0 ==> Lead(s) + 8 <= |s|
  {
  }

  // ---- a second run ----------------------------------------------------------------------

  /** The desktop paths for which a second substitution never changes anything: not ".", and
      with no `desktop/` token of its own, unless it consists of nothing else. */
  predicate Stable(desktop: string) {
    desktop == "" ||
    (&& desktop != "."
     && (forall p | 0 <= p <= |desktop| && PlainHit(desktop + "/", p) :: |desktop| == 7)
     && (Lead(desktop + "/") > 0 ==> |desktop| == Lead(desktop + "/") + 7))
  }

  /** Copied text: as far as it holds no break, it stands in the input as it does in the output. */
  lemma {:induction false} Copied(s: string, desktop: string, c: nat, n: nat)
    requires c <= |s| && n <= |Tail(s, desktop, c)|
    requires n > 0 ==> !PlainHit(s, c)
    requires forall i | 0 <= i < n - 1 :: !IsBreak(Tail(s, desktop, c)[i])
    ensures c + n <= |s| && Tail(s, desktop, c)[..n] == s[c..c + n]
    decreases n
  {
    hide PlainHit, Tail;
    TailLength(s, desktop, c);
    if n > 0 {
      var rest := Tail(s, desktop, c + 1);
      CopyOne(s, desktop, c);
      if n > 1 {
        assert !PlainHit(s, c + 1) by { NoHitBehind(s, c, desktop); }
      }
      forall i | 0 <= i < n - 2 ensures !IsBreak(rest[i]) {
        assert rest[i] == Tail(s, desktop, c)[i + 1];
      }
      Copied(s, desktop, c + 1, n - 1);
      assert Tail(s, desktop, c)[..n] == [s[c]] + rest[..n - 1];
    }
  }

  lemma NoHitBehind(s: string, c: nat, desktop: string)
    requires c < |s| && !PlainHit(s, c) && !IsBreak(Tail(s, desktop, c)[0])
    ensures !PlainHit(s, c + 1)
  {
  }

  lemma TokenIsLocal(s: string, c: nat, t: string, d: nat)
    requires c + 8 <= |s| && d + 8 <= |t| && s[c..c + 8] == t[d..d + 8]
    ensures TokenAt(s, c) == TokenAt(t, d)
  {
    assert s[c..c + 8][..7] == s[c..c + 7] && t[d..d + 8][..7] == t[d..d + 7];
    assert s[c..c + 8][7] == s[c + 7] && t[d..d + 8][7] == t[d + 7];
  }

  /** Where the input starts no path, or is no token, the output is no token either. */
  lemma NoNewToken(s: string, desktop: string, c: nat, out: string, o: nat)
    requires c <= |s| && o <= |out| && out[o..] == Tail(s, desktop, c)
    requires !PlainHit(s, c) && StartsPath(s, c)
    ensures !TokenAt(out, o)
  {
    hide PlainHit, Tail;
    if TokenAt(out, o) {
      TokenFirst(out, o);
      var tail := Tail(s, desktop, c);
      forall i | 0 <= i < 7 ensures !IsBreak(tail[i]) {
        assert tail[i] == out[o..][i];
      }
      Copied(s, desktop, c, 8);
      assert out[o..][..8] == out[o..o + 8];
      TokenIsLocal(out, o, s, c);
      HitByParts(s, c);
    }
  }

  lemma {:induction false} CopyRun(s: string, desktop: string, o: nat, m: nat)
    requires o + m <= |s| && forall k | o <= k < o + m :: !PlainHit(s, k)
    ensures Tail(s, desktop, o) == s[o..o + m] + Tail(s, desktop, o + m)
    decreases m
  {
    hide PlainHit;
    if m > 0 {
      CopyRun(s, desktop, o + 1, m - 1);
      CopyOne(s, desktop, o);
      assert s[o..o + m] == [s[o]] + s[o + 1..o + m];
    } else {
      assert s[o..o] == "";
    }
  }

  /** A token inside an inserted desktop path is a token of the desktop path itself. */
  lemma TokenInDesktop(s: string, desktop: string, o: nat, k: nat)
    requires o + |desktop| < |s| && s[o..o + |desktop|] == desktop && IsSep(s[o + |desktop|])
    requires k <= |desktop| && TokenAt(s, o + k)
    ensures TokenAt(desktop + "/", k)
  {
    TokenFirst(s, o + k);
    assert k + 8 <= |desktop| + 1;
    forall i | 0 <= i < |desktop| ensures s[o + i] == desktop[i] {
      assert s[o..o + |desktop|][i] == s[o + i];
    }
    var t := desktop + "/";
    assert s[o + k..o + k + 7] == t[k..k + 7];
  }

  /** The second run passes an inserted desktop path unchanged. */
  lemma PassDesktop(s: string, desktop: string, o: nat)
    requires o + |desktop| < |s| && s[o..o + |desktop|] == desktop && IsSep(s[o + |desktop|])
    requires StartsPath(s, o) && Stable(desktop) && desktop != ""
    ensures Tail(s, desktop, o) == desktop + [s[o + |desktop|]] + Tail(s, desktop, o + |desktop| + 1)
  {
    hide Tail, Stable, TokenAt;
    var n := |desktop|;
    if n == 7 && TokenAt(s, o) {
      ReplaceToken(s, desktop, o);
    } else {
      forall k | o <= k < o + n + 1 ensures !PlainHit(s, k) {
        NoHitInDesktop(s, desktop, o, k - o);
      }
      CopyRun(s, desktop, o, n + 1);
      assert s[o..o + n + 1] == desktop + [s[o + n]];
    }
  }

  lemma HitInDesktop(s: string, desktop: string, o: nat, k: nat)
    requires o + |desktop| < |s| && s[o..o + |desktop|] == desktop && IsSep(s[o + |desktop|])
    requires k <= |desktop| && PlainHit(s, o + k)
    ensures PlainHit(desktop + "/", k)
  {
    hide TokenAt;
    TokenInDesktop(s, desktop, o, k);
    if k > 0 {
      assert s[o..o + |desktop|][k - 1] == s[o + k - 1];
      assert (desktop + "/")[k - 1] == desktop[k - 1];
    }
  }

  lemma NoHitInDesktop(s: string, desktop: string, o: nat, k: nat)
    requires o + |desktop| < |s| && s[o..o + |desktop|] == desktop && IsSep(s[o + |desktop|])
    requires k <= |desktop| && Stable(desktop) && desktop != ""
    requires !(|desktop| == 7 && TokenAt(s, o))
    ensures !PlainHit(s, o + k)
  {
    hide TokenAt;
    if PlainHit(s, o + k) {
      HitInDesktop(s, desktop, o, k);
      TokenFits(desktop + "/", k);
    }
  }

  lemma TokenFits(s: string, k: nat)
    requires TokenAt(s, k)
    ensures k + 8 <= |s|
  {
  }

  /** A second run over what the first one wrote writes the same. */
  lemma {:induction false} TailTwice(s: string, desktop: string, c: nat, out: string, o: nat)
    requires Stable(desktop) && desktop != ""
    requires c <= |s| && o <= |out| && out[o..] == Tail(s, desktop, c)
    requires StartsPath(s, c) <==> StartsPath(out, o)
    ensures Tail(out, desktop, o) == out[o..]
    decreases |s| - c
  {
    hide Stable, PlainHit, TokenAt, Tail;
    TailLength(s, desktop, c);
    TailLength(out, desktop, o);
    if c == |s| {
      assert out[o..] == "";
    } else if PlainHit(s, c) {
      HitByParts(s, c);
      TokenFits(s, c);
      TokenFirst(s, c);
      var n, rest := |desktop|, Tail(s, desktop, c + 8);
      ReplaceToken(s, desktop, c);
      assert out[o..] == desktop + [s[c + 7]] + rest;
      assert out[o..][..n] == out[o..o + n] && out[o..][n] == out[o + n] && out[o..][n + 1..] == out[o + n + 1..];
      PassDesktop(out, desktop, o);
      TailTwice(s, desktop, c + 8, out, o + n + 1);
    } else {
      CopyOne(s, desktop, c);
      assert out[o..][0] == out[o] && out[o..][1..] == out[o + 1..];
      HitByParts(out, o);
      if StartsPath(s, c) {
        NoNewToken(s, desktop, c, out, o);
      }
      CopyOne(out, desktop, o);
      TailTwice(s, desktop, c + 1, out, o + 1);
    }
  }

  /** Writing a path behind the drop rule introduces no leading token that was not there. */
  lemma NoNewLead(s: string, desktop: string)
    requires Lead(s) == 0 && !PlainHit(s, 0)
    ensures Lead(Tail(s, desktop, 0)) == 0
  {
    hide PlainHit, TokenAt, Tail;
    var out := Tail(s, desktop, 0);
    var k := Lead(out);
    if k > 0 {
      TokenFirst(out, k);
      TokenFits(out, k);
      Copied(s, desktop, 0, k + 8);
      assert s[0..k + 8] == out[..k + 8];
      assert forall i | 0 <= i < k + 8 :: s[i] == out[i] by {
        assert forall i | 0 <= i < k + 8 :: s[0..k + 8][i] == s[i] && out[..k + 8][i] == out[i];
      }
      assert s[k..k + 8] == out[k..k + 8];
      TokenIsLocal(s, k, out, k);
    }
  }

  /** A leading token of a text that begins with the desktop path belongs to that path. */
  lemma LeadInDesktop(out: string, desktop: string)
    requires desktop != "" && desktop != "." && |desktop| < |out|
    requires out[..|desktop|] == desktop && IsSep(out[|desktop|]) && Lead(out) > 0
    ensures Lead(desktop + "/") == Lead(out)
  {
    hide TokenAt;
    var k, t := Lead(out), desktop + "/";
    TokenFirst(out, k);
    forall i | 0 <= i < |desktop| ensures out[i] == t[i] {
      assert out[..|desktop|][i] == out[i];
    }
    assert |desktop| >= k + 7;
    assert out[0..0 + |desktop|] == desktop;
    TokenInDesktop(out, desktop, 0, k);
  }

  lemma BeginsWithDesktop(s: string, desktop: string, c: nat, out: string)
    requires Stable(desktop) && desktop != "" && 0 < c <= |s| && IsSep(s[c - 1])
    requires out == desktop + [s[c - 1]] + Tail(s, desktop, c)
    ensures Substitute(out, desktop) == out
  {
    hide TokenAt, Tail;
    var n := |desktop|;
    assert out[n + 1..] == Tail(s, desktop, c);
    TailTwice(s, desktop, c, out, n + 1);
    assert out[0..n] == desktop && out[..n] == desktop && out[n] == s[c - 1];
    if Lead(out) > 0 {
      LeadInDesktop(out, desktop);
    } else {
      PassDesktop(out, desktop, 0);
    }
  }

  /** On a stable desktop path a second substitution changes nothing. */
  lemma SecondRunKeeps(s: string, desktop: string)
    requires Stable(desktop)
    ensures Substitute(Substitute(s, desktop), desktop) == Substitute(s, desktop)
  {
    hide TokenAt, Tail, Stable;
    if desktop != "" {
      var out, k := Substitute(s, desktop), Lead(s);
      if k > 0 {
        TokenFirst(s, k);
        TokenFits(s, k);
        BeginsWithDesktop(s, desktop, k + 8, out);
      } else if PlainHit(s, 0) {
        TokenFirst(s, 0);
        TokenFits(s, 0);
        ReplaceToken(s, desktop, 0);
        BeginsWithDesktop(s, desktop, 8, out);
      } else {
        NoNewLead(s, desktop);
        assert out[0..] == out;
        TailTwice(s, desktop, 0, out, 0);
      }
    }
  }

  // ---- and only then ------------------------------------------------------------------------

  lemma {:induction false} TailKeepsLength(s: string, desktop: string, c: nat)
    requires c <= |s| && |desktop| >= 7
    ensures |Tail(s, desktop, c)| >= |s| - c
    decreases |s| - c
  {
    hide TokenAt, StartsPath;
    if c < |s| {
      if PlainHit(s, c) {
        TokenFits(s, c);
        TailKeepsLength(s, desktop, c + 8);
      } else {
        TailKeepsLength(s, desktop, c + 1);
      }
    }
  }

  lemma {:induction false} TailGrows(s: string, desktop: string, c: nat, p: nat)
    requires c <= p < |s| && |desktop| > 7 && PlainHit(s, p)
    ensures |Tail(s, desktop, c)| > |s| - c
    decreases p - c
  {
    hide TokenAt, StartsPath, PlainHit;
    if PlainHit(s, c) {
      HitByParts(s, c);
      TokenFits(s, c);
      ReplaceToken(s, desktop, c);
      TailKeepsLength(s, desktop, c + 8);
    } else {
      CopyOne(s, desktop, c);
      TailGrows(s, desktop, c + 1, p);
    }
  }

  lemma BeginsWithToken(sep: char, rest: string)
    requires IsSep(sep)
    ensures TokenAt("desktop" + [sep] + rest, 0) && Lead("desktop" + [sep] + rest) == 0
  {
    var s := "desktop" + [sep] + rest;
    assert s[0..7] == "desktop" && s[7] == sep && s[0] == 'd';
  }

  /** The shortest inputs: they become the desktop path and the separator. */
  lemma SubstituteToken(desktop: string, sep: char)
    requires desktop != "" && IsSep(sep)
    ensures Substitute("desktop" + [sep], desktop) == desktop + [sep]
  {
    var s := "desktop" + [sep];
    BeginsWithToken(sep, "");
    assert s + "" == s;
    ReplaceToken(s, desktop, 0);
    TailLength(s, desktop, 8);
  }

  /** Which separator ends the text does not matter for the tokens in it. */
  lemma SepsAreAlike(desktop: string, sep: char)
    requires IsSep(sep)
    ensures Lead(desktop + [sep]) == Lead(desktop + "/")
    ensures forall p | 0 <= p <= |desktop| :: PlainHit(desktop + [sep], p) <==> PlainHit(desktop + "/", p)
  {
    var s, t := desktop + [sep], desktop + "/";
    forall p | 0 <= p <= |s| ensures TokenAt(s, p) <==> TokenAt(t, p) {
      if p + 8 <= |s| {
        assert s[p..p + 7] == t[p..p + 7];
        assert IsSep(s[p + 7]) <==> IsSep(t[p + 7]);
      }
    }
  }

  /** A desktop path with a token of its own grows on every further run. */
  lemma SecondRunGrows(desktop: string, sep: char)
    requires !Stable(desktop) && desktop != "." && IsSep(sep)
    ensures Substitute(desktop + [sep], desktop) != desktop + [sep]
  {
    hide TokenAt, Tail;
    SepsAreAlike(desktop, sep);
    var t := desktop + [sep];
    var k := Lead(t);
    if k > 0 {
      TokenFits(t, k);
      TailKeepsLength(t, desktop, k + 8);
      if |desktop| == k + 7 {
        var p :| 0 <= p <= |desktop| && PlainHit(t, p) && |desktop| != 7;
        TokenFits(t, p);
        TokenFirst(t, p);
        TokenFirst(t, k);
      }
    } else {
      var p :| 0 <= p <= |desktop| && PlainHit(t, p) && |desktop| != 7;
      TokenFits(t, p);
      TailGrows(t, desktop, 0, p);
    }
  }

  lemma DotOnce()
    ensures Substitute("desktop/desktop/", ".") == "./desktop/"
  {
    hide Tail, TokenAt;
    var s := "desktop" + ['/'] + "desktop/";
    assert s == "desktop/desktop/" && s[7] == '/';
    BeginsWithToken('/', "desktop/");
    ReplaceToken(s, ".", 0);
    forall k | 8 <= k < 8 + 8 ensures !PlainHit(s, k) {
      if TokenAt(s, k) {
        TokenFits(s, k);
      }
    }
    CopyRun(s, ".", 8, 8);
    TailLength(s, ".", 16);
    assert s[8..16] == "desktop/";
  }

  lemma DotTwice()
    ensures Substitute("./desktop/", ".") == "./"
  {
    var out := "./desktop/";
    assert out[2..9] == "desktop";
    assert Lead(out) == 2;
    TailLength(out, ".", 10);
  }

  /** "." is the one path whose failure needs two tokens in a row. */
  lemma DotIsUnstable()
    ensures Substitute(Substitute("desktop/desktop/", "."), ".") != Substitute("desktop/desktop/", ".")
  {
    DotOnce();
    DotTwice();
  }

  /** A desktop folder below one called "My Desktop": what a first run writes, a second rewrites. */
  lemma MovedDesktopIsUnstable()
    ensures var desktop := "D:\\My Desktop\\Desktop";
      && !Stable(desktop)
      && Substitute("desktop/", desktop) == desktop + "/"
      && Substitute(Substitute("desktop/", desktop), desktop) != Substitute("desktop/", desktop)
  {
    hide Substitute, PlainHit, Lead;
    var desktop := "D:\\My Desktop\\Desktop";
    MovedDesktopHit();
    assert !Stable(desktop);
    SubstituteToken(desktop, '/');
    SecondRunGrows(desktop, '/');
    assert "desktop" + ['/'] == "desktop/" && desktop + ['/'] == desktop + "/";
  }

  lemma MovedDesktopHit()
    ensures PlainHit("D:\\My Desktop\\Desktop" + "/", 6)
  {
    var s := "D:\\My Desktop\\Desktop" + "/";
    assert s[5] == ' ' && s[13] == '\\';
    assert s[6..13] == "Desktop";
    assert Lower("Desktop") == "desktop";
  }

  lemma EmptyIsStable()
    ensures Stable("")
  {
  }

  /** The substitution can be repeated without effect on every input if and only if the
      desktop path is stable. */
  lemma RepeatableExactlyWhenStable(desktop: string)
    ensures (forall s :: Substitute(Substitute(s, desktop), desktop) == Substitute(s, desktop)) <==> Stable(desktop)
  {
    hide Stable, Substitute;
    EmptyIsStable();
    if Stable(desktop) {
      forall s ensures Substitute(Substitute(s, desktop), desktop) == Substitute(s, desktop) {
        SecondRunKeeps(s, desktop);
      }
    } else if desktop == "." {
      DotIsUnstable();
    } else {
      SubstituteToken(desktop, '/');
      SecondRunGrows(desktop, '/');
    }
  }

  /** One token, behind a break, in a text without another. */
  lemma SubstituteInside(before: string, after: string, desktop: string)
    requires desktop != "" && before != "" && IsBreak(before[|before| - 1])
    requires 'd' !in after && 'D' !in after
    requires var s := before + "desktop/" + after;
      Lead(s) == 0 && forall p | 0 <= p < |before| :: !PlainHit(s, p)
    ensures Substitute(before + "desktop/" + after, desktop) == before + (desktop + "/") + after
  {
    hide Tail, PlainHit;
    var s, m := before + "desktop/" + after, |before|;
    CopyRun(s, desktop, 0, m);
    TokenHere(before, after);
    ReplaceToken(s, desktop, m);
    forall p | m + 8 <= p < |s| ensures !PlainHit(s, p) {
      NoTokenWithoutD(s, p);
    }
    CopyRun(s, desktop, m + 8, |after|);
    TailLength(s, desktop, |s|);
    assert s[0..m] == before && s[m + 8..m + 8 + |after|] == after && s[m + 7] == '/';
  }

  lemma TokenHere(before: string, after: string)
    requires before != "" && IsBreak(before[|before| - 1])
    ensures var s := before + "desktop/" + after; TokenAt(s, |before|) && PlainHit(s, |before|)
  {
    var s, m := before + "desktop/" + after, |before|;
    assert s[m..m + 7] == "desktop" && s[m + 7] == '/' && s[m - 1] == before[m - 1];
  }

  lemma NoTokenWithoutD(s: string, p: nat)
    requires p < |s| && s[p] != 'd' && s[p] != 'D'
    ensures !PlainHit(s, p)
  {
    if p + 8 <= |s| {
      assert Lower(s[p..p + 7])[0] == LowerChar(s[p]);
      assert "desktop"[0] == 'd';
    }
  }

  // ---- which texts are left alone -----------------------------------------------------------

  /** The texts a first substitution does not change: no token begins a path in them, except one
      already spelled as the desktop path. A leading token counts with the separator in front. */
  predicate LeavesAlone(s: string, desktop: string) {
    || desktop == ""
    || (Lead(s) == 0 && forall p | 0 <= p < |s| && PlainHit(s, p) :: p + 7 <= |s| && s[p..p + 7] == desktop)
    || (Lead(s) > 0 && Lead(s) + 7 <= |s| && s[..Lead(s) + 7] == desktop && forall p | 0 <= p < |s| :: !PlainHit(s, p))
  }

  lemma {:induction false} TailNotLonger(s: string, desktop: string, c: nat)
    requires c <= |s| && |desktop| <= 7
    ensures |Tail(s, desktop, c)| <= |s| - c
    decreases |s| - c
  {
    hide TokenAt, StartsPath;
    if c < |s| {
      if PlainHit(s, c) {
        TokenFits(s, c);
        TailNotLonger(s, desktop, c + 8);
      } else {
        TailNotLonger(s, desktop, c + 1);
      }
    }
  }

  /** No token begins a path inside another one, or right behind it. */
  lemma NoHitInToken(s: string, c: nat, p: nat)
    requires TokenAt(s, c) && c < p <= c + 8 && p < |s|
    ensures !PlainHit(s, p)
  {
    TokenFirst(s, c);
    TokenFits(s, c);
  }

  /** Every token from `c` on is spelled as the desktop path. */
  predicate OnlyOwnTokens(s: string, desktop: string, c: nat) {
    forall p | c <= p < |s| && PlainHit(s, p) :: p + 7 <= |s| && s[p..p + 7] == desktop
  }

  lemma OwnTokensPastOne(s: string, desktop: string, c: nat)
    requires c < |s| && PlainHit(s, c)
    ensures c + 8 <= |s|
    ensures OnlyOwnTokens(s, desktop, c) <==> s[c..c + 7] == desktop && OnlyOwnTokens(s, desktop, c + 8)
  {
    hide TokenAt, StartsPath;
    TokenFits(s, c);
    forall p | c < p < c + 8 && p < |s| ensures !PlainHit(s, p) {
      NoHitInToken(s, c, p);
    }
  }

  lemma {:induction false} TailUntouched(s: string, desktop: string, c: nat)
    requires c <= |s|
    ensures Tail(s, desktop, c) == s[c..] <==> OnlyOwnTokens(s, desktop, c)
    decreases |s| - c
  {
    hide TokenAt, StartsPath, PlainHit, OnlyOwnTokens;
    if c == |s| {
      TailLength(s, desktop, c);
      NoTokensLeft(s, desktop, c);
    } else if PlainHit(s, c) {
      OwnTokensPastOne(s, desktop, c);
      HitByParts(s, c);
      ReplaceToken(s, desktop, c);
      TailUntouched(s, desktop, c + 8);
      if |desktop| < 7 {
        TailNotLonger(s, desktop, c + 8);
      } else {
        TailKeepsLength(s, desktop, c + 8);
      }
      OneReplaced(s, desktop, c, Tail(s, desktop, c + 8));
    } else {
      CopyOne(s, desktop, c);
      TailUntouched(s, desktop, c + 1);
      OwnTokensPastChar(s, desktop, c);
      assert s[c..] == [s[c]] + s[c + 1..];
    }
  }

  lemma OneReplaced(s: string, desktop: string, c: nat, rest: string)
    requires c + 8 <= |s| && (|desktop| < 7 ==> |rest| <= |s| - c - 8) && (|desktop| > 7 ==> |rest| >= |s| - c - 8)
    ensures desktop + [s[c + 7]] + rest == s[c..] <==> s[c..c + 7] == desktop && rest == s[c + 8..]
  {
    var out := desktop + [s[c + 7]] + rest;
    assert s[c..] == s[c..c + 7] + [s[c + 7]] + s[c + 8..];
    if |desktop| == 7 && out == s[c..] {
      assert out[..7] == desktop && s[c..][..7] == s[c..c + 7];
      assert out[8..] == rest && s[c..][8..] == s[c + 8..];
    }
  }

  lemma NoTokensLeft(s: string, desktop: string, c: nat)
    requires c >= |s|
    ensures OnlyOwnTokens(s, desktop, c)
  {
  }

  lemma OwnTokensPastChar(s: string, desktop: string, c: nat)
    requires c < |s| && !PlainHit(s, c)
    ensures OnlyOwnTokens(s, desktop, c) <==> OnlyOwnTokens(s, desktop, c + 1)
  {
  }

  /** A substitution changes nothing exactly on the texts described. */
  lemma UntouchedExactly(s: string, desktop: string)
    ensures Substitute(s, desktop) == s <==> LeavesAlone(s, desktop)
  {
    hide TokenAt, StartsPath, PlainHit, Tail;
    var k := Lead(s);
    if desktop != "" {
      if k == 0 {
        TailUntouched(s, desktop, 0);
        assert s[0..] == s;
      } else {
        LeadUntouched(s, desktop, k);
      }
    }
  }

  lemma LeadUntouched(s: string, desktop: string, k: nat)
    requires k == Lead(s) > 0
    ensures k + 8 <= |s|
    ensures desktop + [s[k + 7]] + Tail(s, desktop, k + 8) == s
      <==> (s[..k + 7] == desktop && forall p | 0 <= p < |s| :: !PlainHit(s, p))
  {
    hide TokenAt, StartsPath, PlainHit, Tail;
    TokenFits(s, k);
    NoHitBeforeLead(s, k);
    TailUntouched(s, desktop, k + 8);
    var rest := Tail(s, desktop, k + 8);
    var out := desktop + [s[k + 7]] + rest;
    assert s == s[..k + 7] + [s[k + 7]] + s[k + 8..];
    if |desktop| <= 7 {
      TailNotLonger(s, desktop, k + 8);
    } else if |desktop| < k + 7 {
      TokenFirst(s, k);
      assert out[|desktop|] == s[k + 7];
    } else if |desktop| > k + 7 {
      TailKeepsLength(s, desktop, k + 8);
    } else if out == s {
      assert out[..k + 7] == desktop && out[k + 8..] == rest;
      LongHasNoOwnTokens(s, desktop, k + 8);
    } else {
      LongHasNoOwnTokens(s, desktop, k + 8);
    }
  }

  lemma NoHitBeforeLead(s: string, k: nat)
    requires k == Lead(s) > 0
    ensures forall p | 0 <= p < k + 8 && p < |s| :: !PlainHit(s, p)
  {
    TokenFirst(s, k);
    forall p | 0 <= p < k + 8 && p < |s| ensures !PlainHit(s, p) {
      if p > k {
        NoHitInToken(s, k, p);
      } else if TokenAt(s, p) {
        TokenFirst(s, p);
      }
    }
  }

  lemma LongHasNoOwnTokens(s: string, desktop: string, c: nat)
    requires |desktop| > 7
    ensures OnlyOwnTokens(s, desktop, c) <==> forall p | c <= p < |s| :: !PlainHit(s, p)
  {
  }

  // ---- the desktop path itself, and never an empty result -----------------------------------

  lemma DesktopIsKept(desktop: string)
    requires Stable(desktop)
    ensures Substitute(desktop, desktop) == desktop
  {
    hide TokenAt, Tail;
    if desktop != "" {
      var t := desktop + "/";
      forall k | 0 <= k < |desktop| ensures !PlainHit(desktop, k) {
        if TokenAt(desktop, k) {
          TokenFits(desktop, k);
          assert desktop[k..k + 8] == t[k..k + 8];
          TokenIsLocal(desktop, k, t, k);
          assert StartsPath(desktop, k) == StartsPath(t, k);
          assert PlainHit(desktop, k) ==> PlainHit(t, k);
        }
      }
      var k := Lead(desktop);
      if k > 0 {
        TokenFits(desktop, k);
        assert desktop[k..k + 8] == t[k..k + 8];
        TokenIsLocal(desktop, k, t, k);
      }
      CopyRun(desktop, desktop, 0, |desktop|);
      TailLength(desktop, desktop, |desktop|);
      assert desktop[0..|desktop|] == desktop;
    }
  }

  /** What is written is the input, or shows the desktop path. */
  lemma SubstituteShows(s: string, desktop: string)
    requires desktop != ""
    ensures Substitute(s, desktop) == s || exists i :: Occurs(Substitute(s, desktop), desktop, i)
  {
    hide TokenAt, Tail, PlainHit;
    var k := Lead(s);
    if k > 0 {
      TokenFits(s, k);
      assert Substitute(s, desktop)[0..|desktop|] == desktop;
      assert Occurs(Substitute(s, desktop), desktop, 0);
    } else {
      TailShows(s, desktop, 0);
      assert s[0..] == s;
    }
  }

  lemma {:induction false} TailShows(s: string, desktop: string, c: nat)
    requires c <= |s|
    ensures Tail(s, desktop, c) == s[c..] || exists i :: Occurs(Tail(s, desktop, c), desktop, i)
    decreases |s| - c
  {
    hide TokenAt, StartsPath, PlainHit, Tail, Occurs;
    if c == |s| {
      TailLength(s, desktop, c);
    } else if PlainHit(s, c) {
      HitByParts(s, c);
      TokenFits(s, c);
      ReplaceToken(s, desktop, c);
      OccursFirst(desktop, s[c + 7], Tail(s, desktop, c + 8));
    } else {
      TailShows(s, desktop, c + 1);
      CopyOne(s, desktop, c);
      var rest := Tail(s, desktop, c + 1);
      if i :| Occurs(rest, desktop, i) {
        OccursLater(s[c], rest, desktop, i);
      } else {
        assert s[c..] == [s[c]] + s[c + 1..];
      }
    }
  }

  lemma OccursFirst(needle: string, c: char, rest: string)
    ensures Occurs(needle + [c] + rest, needle, 0)
  {
    assert (needle + [c] + rest)[0..|needle|] == needle;
  }

  lemma OccursLater(c: char, rest: string, needle: string, i: int)
    requires Occurs(rest, needle, i)
    ensures Occurs([c] + rest, needle, i + 1)
  {
    assert ([c] + rest)[i + 1..i + 1 + |needle|] == rest[i..i + |needle|];
  }

  lemma SubstituteIsNonempty(s: string, desktop: string)
    requires s != ""
    ensures Substitute(s, desktop) != ""
  {
    hide TokenAt, StartsPath, LeadingAt;
  }

  // ---- looks_like_invented_desktop_path -----------------------------------------------------

  /** The segments between separators. */
  function Segments(s: string): (r: seq<string>)
    ensures r != []
  {
    if s == "" then [""]
    else
      var rest := Segments(s[1..]);
      if IsSep(s[0]) then [""] + rest else [[s[0]] + rest[0]] + rest[1..]
  }

  /** A "desktop" directory that is not the real one, in any letter case. */
  predicate InventedDesktop(path: string, desktop: string) {
    desktop != "" && !(Lower(desktop) <= Lower(path)) && "desktop" in Segments(Lower(path))
  }

  /** "desktop" stands at `i`, bounded by separators or the ends. */
  predicate SegmentAt(s: string, i: int) {
    && Occurs(s, "desktop", i)
    && (i == 0 || IsSep(s[i - 1]))
    && (i + 7 == |s| || IsSep(s[i + 7]))
  }

  /** What one round of the scan learns. */
  lemma NextSegment(s: string, from: nat, i: nat)
    requires Find(s, "desktop", from) == Some(i)
    ensures from <= i && i + 7 <= |s|
    ensures SegmentAt(s, i) <==> (i == 0 || IsSep(s[i - 1])) && (i + 7 == |s| || IsSep(s[i + 7]))
    ensures forall k | from <= k < i + 7 && k != i :: !SegmentAt(s, k)
  {
    FindFound(s, "desktop", from);
    JumpLosesNothing(s, i);
  }

  /** The scanning loop. */
  method FindSegment(lowered: string) returns (found: bool)
    ensures found <==> exists i :: 0 <= i < |lowered| && SegmentAt(lowered, i)
  {
    hide Find, SegmentAt;
    var searchPosition := 0;
    while true
      invariant searchPosition <= |lowered|
      invariant forall i | 0 <= i < searchPosition :: !SegmentAt(lowered, i)
      decreases |lowered| - searchPosition
    {
      var next := Find(lowered, "desktop", searchPosition);
      if next.None? {
        NoneFound(lowered, searchPosition);
        return false;
      }
      NextSegment(lowered, searchPosition, next.value);
      var after := next.value + 7;
      var leftBoundary := next.value == 0 || IsSep(lowered[next.value - 1]);
      var rightBoundary := after == |lowered| || IsSep(lowered[after]);
      if leftBoundary && rightBoundary {
        return true;
      }
      searchPosition := after;
    }
  }

  method LooksLikeInventedDesktopPath(path: string, desktop: string) returns (invented: bool)
    ensures invented == InventedDesktop(path, desktop)
  {
    hide Segments, SegmentAt;
    if desktop == "" { return false; }
    var lowered := Lower(path);
    if Lower(desktop) <= lowered { return false; }
    SegmentsAreBounded(lowered);
    invented := FindSegment(lowered);
  }

  lemma {:induction false} NoneFound(s: string, from: nat)
    requires Find(s, "desktop", from).None?
    ensures forall i: nat | from <= i :: !SegmentAt(s, i)
    decreases |s| - from
  {
    if from + 7 <= |s| {
      NoneFound(s, from + 1);
    }
  }

  /** "desktop" cannot overlap itself, so nothing is lost by jumping past a match. */
  lemma JumpLosesNothing(s: string, i: nat)
    requires Occurs(s, "desktop", i)
    ensures forall k | i < k < i + 7 :: !Occurs(s, "desktop", k)
  {
    forall k | i < k < i + 7 ensures !Occurs(s, "desktop", k) {
      assert s[k] == s[i..i + 7][k - i] == "desktop"[k - i] != 'd';
      if k + 7 <= |s| {
        assert s[k..k + 7][0] == s[k];
      }
    }
  }

  /** The first segment is the text up to the first separator. */
  lemma {:induction false} FirstSegment(s: string, word: string)
    requires forall i | 0 <= i < |word| :: !IsSep(word[i])
    ensures Segments(s)[0] == word <==> word <= s && (|word| == |s| || IsSep(s[|word|]))
  {
    if s != "" && !IsSep(s[0]) && word != "" {
      FirstSegment(s[1..], word[1..]);
      assert s == [s[0]] + s[1..] && word == [word[0]] + word[1..];
    }
  }

  lemma SegmentShift(s: string, i: nat)
    requires s != "" && (i > 0 || IsSep(s[0]))
    ensures SegmentAt(s, i + 1) <==> SegmentAt(s[1..], i)
  {
    var t := s[1..];
    if i + 8 <= |s| {
      assert s[i + 1..i + 8] == t[i..i + 7];
    }
  }

  /** A later segment equals "desktop" where one is bounded on its left by a separator. */
  lemma {:induction false} LaterSegments(s: string)
    ensures "desktop" in Segments(s)[1..] <==> exists i :: 1 <= i < |s| && SegmentAt(s, i)
  {
    hide SegmentAt;
    if s != "" {
      var t := s[1..];
      LaterSegments(t);
      forall i: nat | i > 0 || IsSep(s[0]) ensures SegmentAt(s, i + 1) <==> SegmentAt(t, i) {
        SegmentShift(s, i);
      }
      if IsSep(s[0]) {
        assert Segments(s)[1..] == Segments(t);
        assert Segments(t) == [Segments(t)[0]] + Segments(t)[1..];
        SegmentAtStart(t);
        EarlierOrLater(s, t);
      } else {
        assert Segments(s)[1..] == Segments(t)[1..];
        NotFirst(s, t);
      }
    }
  }

  lemma SegmentAtStart(s: string)
    ensures Segments(s)[0] == "desktop" <==> SegmentAt(s, 0)
    ensures SegmentAt(s, 0) ==> s != ""
  {
    FirstSegment(s, "desktop");
    assert "desktop" <= s <==> Occurs(s, "desktop", 0);
  }

  lemma EarlierOrLater(s: string, t: string)
    requires s != "" && t == s[1..] && IsSep(s[0])
    requires forall i: nat | i > 0 || IsSep(s[0]) :: SegmentAt(s, i + 1) <==> SegmentAt(t, i)
    requires SegmentAt(t, 0) ==> t != ""
    ensures (SegmentAt(t, 0) || exists i :: 1 <= i < |t| && SegmentAt(t, i))
      <==> exists i :: 1 <= i < |s| && SegmentAt(s, i)
  {
    hide SegmentAt;
    if SegmentAt(t, 0) {
      assert SegmentAt(s, 0 + 1);
    }
    if i :| 1 <= i < |t| && SegmentAt(t, i) {
      assert SegmentAt(s, i + 1);
    }
    if i :| 1 <= i < |s| && SegmentAt(s, i) {
      assert SegmentAt(s, (i - 1) + 1);
      assert i > 1 || IsSep(s[0]) ==> SegmentAt(t, i - 1);
    }
  }

  lemma NotFirst(s: string, t: string)
    requires s != "" && t == s[1..] && !IsSep(s[0])
    requires forall i: nat | i > 0 || IsSep(s[0]) :: SegmentAt(s, i + 1) <==> SegmentAt(t, i)
    ensures (exists i :: 1 <= i < |t| && SegmentAt(t, i)) <==> exists i :: 1 <= i < |s| && SegmentAt(s, i)
  {
    if i :| 1 <= i < |t| && SegmentAt(t, i) {
      assert SegmentAt(s, i + 1);
    }
    if i :| 1 <= i < |s| && SegmentAt(s, i) {
      assert SegmentAt(s, (i - 1) + 1);
      assert i > 1 || IsSep(s[0]) ==> SegmentAt(t, i - 1);
    }
  }

  /** A segment equals "desktop" exactly where the scan's boundary test holds. */
  lemma SegmentsAreBounded(s: string)
    ensures "desktop" in Segments(s) <==> exists i :: 0 <= i < |s| && SegmentAt(s, i)
  {
    hide SegmentAt;
    SegmentAtStart(s);
    LaterSegments(s);
    assert Segments(s) == [Segments(s)[0]] + Segments(s)[1..];
    if i :| 0 <= i < |s| && SegmentAt(s, i) {
      assert i == 0 || (1 <= i < |s| && SegmentAt(s, i));
    }
  }
}

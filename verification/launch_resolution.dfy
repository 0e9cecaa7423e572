/** Opening an application: the trust-ordered resolution of `cli/host.cpp`, run before the
    approval prompt and again at execution on the rewritten call. */
module LaunchResolution {
  import opened Text
  import opened JsonCodec
  import opened JsonTokens
  import opened JsonLookup
  import opened JsonLens
  import opened JsonDocument
  import opened ApprovalPaths

  /** A curated Windows location. */
  datatype KnownTarget = KnownTarget(executable: string, args: string, displayName: string)

  /** What the resolution asks of the machine; "" and None mean not found. */
  datatype Machine = Machine(
    isRegularFile: string -> bool,
    absolute: string -> string,
    appPathsRegistry: string -> string,
    installedApps: string -> string,
    knownLocation: string -> Option<KnownTarget>,
    systemExecutable: string -> string,
    which: string -> Option<string>)

  datatype LaunchTarget =
    | Resolved(target: string, args: string, source: string, displayName: string)
    | Unresolved(message: string)

  function ResolveTarget(m: Machine, name: string, args: string): LaunchTarget {
    if LooksLikePath(name) then
      if m.isRegularFile(name) then Resolved(m.absolute(name), args, "given_path", "")
      else Unresolved("does not exist")
    else if m.appPathsRegistry(name) != "" then
      Resolved(m.appPathsRegistry(name), args, "app_paths_registry", "")
    else if m.installedApps(name) != "" then
      Resolved(m.installedApps(name), args, "installed_apps_index", "")
    else match m.knownLocation(name)
      case Some(known) =>
        var path := m.systemExecutable(known.executable);
        if path == "" then Unresolved("not in the Windows system directory")
        else Resolved(path, if args == "" then known.args else args, "windows_known_location", known.displayName)
      case None =>
        match m.which(name)
        case Some(path) => Resolved(path, args, "path_search", "")
        case None => Unresolved("could not be resolved")
  }

  function RewrittenMembers(target: string, args: string, workDir: string, displayName: string): seq<Member> {
    [Member("path_or_name", JStr(target)), Member("args", JStr(args)), Member("work_dir", JStr(workDir))]
    + (if displayName != "" then [Member("resolved_display_name", JStr(displayName))] else [])
  }

  /** The arguments proposed for approval, or None when nothing resolves. */
  function PrecheckOpen(m: Machine, arguments: string): Option<string> {
    var name := StringField(arguments, "path_or_name", 0);
    var args := StringField(arguments, "args", 0);
    var workDir := StringField(arguments, "work_dir", 0);
    if name == "" then Some(arguments)
    else match ResolveTarget(m, name, args)
      case Unresolved(_) => None
      case Resolved(target, effective, _, displayName) =>
        Some(Print(JObj(RewrittenMembers(target, effective, workDir, displayName))))
  }

  datatype Launch = Launch(target: string, args: string, workDir: string, displayName: string) | NoLaunch

  /** What `open_application` launches for an approved call; `launch_application` refuses a
      target without a separator. */
  function ExecutedLaunch(m: Machine, arguments: string): Launch {
    var name := StringField(arguments, "path_or_name", 0);
    var args := StringField(arguments, "args", 0);
    var passthrough := StringField(arguments, "resolved_display_name", 0);
    if name == "" then NoLaunch
    else match ResolveTarget(m, name, args)
      case Unresolved(_) => NoLaunch
      case Resolved(target, effective, _, displayName) =>
        if !LooksLikePath(target) then NoLaunch
        else Launch(target, effective, StringField(arguments, "work_dir", 0),
          if passthrough != "" then passthrough else displayName)
  }

  lemma LaunchKeys()
    ensures IsKey("path_or_name") && IsKey("args") && IsKey("work_dir") && IsKey("resolved_display_name")
  {
  }

  lemma RewrittenLookup(target: string, args: string, workDir: string, displayName: string, key: string)
    ensures FirstInMembers(RewrittenMembers(target, args, workDir, displayName), key) ==
      if key == "path_or_name" then Some(JStr(target))
      else if key == "args" then Some(JStr(args))
      else if key == "work_dir" then Some(JStr(workDir))
      else if key == "resolved_display_name" && displayName != "" then Some(JStr(displayName))
      else None
  {
    hide FirstInMembers;
    var m, n, o := Member("path_or_name", JStr(target)), Member("args", JStr(args)), Member("work_dir", JStr(workDir));
    var p := Member("resolved_display_name", JStr(displayName));
    FirstInBoth([m, n, o], if displayName != "" then [p] else [], key);
    FirstInThree(m, n, o, key);
    FirstInOne(m, key);
    FirstInOne(n, key);
    FirstInOne(o, key);
    FirstInOne(p, key);
    FirstInNone(key);
  }

  lemma FirstInNone(key: string)
    ensures FirstInMembers([], key).None?
  {
  }

  /** The rewritten call reads back as exactly what was resolved. */
  lemma RewrittenReadBack(target: string, args: string, workDir: string, displayName: string, key: string)
    requires key == "path_or_name" || key == "args" || key == "work_dir" || key == "resolved_display_name"
    ensures StringField(Print(JObj(RewrittenMembers(target, args, workDir, displayName))), key, 0) ==
      if key == "path_or_name" then target
      else if key == "args" then args
      else if key == "work_dir" then workDir
      else displayName
  {
    LaunchKeys();
    hide StringField, Print, FirstInMembers, IsKey;
    var v := JObj(RewrittenMembers(target, args, workDir, displayName));
    assert Proper(v);
    RewrittenLookup(target, args, workDir, displayName, key);
    ReadBack(v, key);
  }

  /** For every call resolved at approval time, execution on a possibly changed machine launches
      exactly the approved target with the approved arguments, directory and display name if and
      only if that target is a path, still is a regular file, and is its own absolute form. */
  lemma ApprovedIsLaunched(before: Machine, after: Machine, arguments: string)
    requires var name := StringField(arguments, "path_or_name", 0);
      name != "" && ResolveTarget(before, name, StringField(arguments, "args", 0)).Resolved?
    ensures var approved := ResolveTarget(before, StringField(arguments, "path_or_name", 0),
      StringField(arguments, "args", 0));
      var proposed := PrecheckOpen(before, arguments);
      && proposed.Some?
      && (ExecutedLaunch(after, proposed.value)
          == Launch(approved.target, approved.args, StringField(arguments, "work_dir", 0), approved.displayName)
        <==> (LooksLikePath(approved.target)
          && after.isRegularFile(approved.target) && after.absolute(approved.target) == approved.target))
  {
    hide StringField, Print, RewrittenMembers, LooksLikePath;
    var approved := ResolveTarget(before, StringField(arguments, "path_or_name", 0), StringField(arguments, "args", 0));
    var workDir := StringField(arguments, "work_dir", 0);
    RewrittenReadBack(approved.target, approved.args, workDir, approved.displayName, "path_or_name");
    RewrittenReadBack(approved.target, approved.args, workDir, approved.displayName, "args");
    RewrittenReadBack(approved.target, approved.args, workDir, approved.displayName, "work_dir");
    RewrittenReadBack(approved.target, approved.args, workDir, approved.displayName, "resolved_display_name");
    EmptyIsNoPath();
  }

  lemma EmptyIsNoPath()
    ensures !LooksLikePath("")
  {
  }

  /** What the approval prompt shows of a resolved call, and what then runs: execution launches
      the very path shown if and only if the target is a path that still is a regular file and
      whose absolute form is the one shown. The other fields are shown as they are used. */
  lemma ShownLaunchIsExecuted(before: Machine, after: Machine, arguments: string, desktop: string, absolute: Absolute)
    requires var name := StringField(arguments, "path_or_name", 0);
      name != "" && ResolveTarget(before, name, StringField(arguments, "args", 0)).Resolved?
    ensures var approved := ResolveTarget(before, StringField(arguments, "path_or_name", 0),
      StringField(arguments, "args", 0));
      var workDir := StringField(arguments, "work_dir", 0);
      var proposed := PrecheckOpen(before, arguments);
      && proposed.Some?
      && var shown := DisplayArguments("open_application", proposed.value, desktop, absolute);
      var path := StringField(shown, "path_or_name", 0);
      && path == (if LooksLikePath(approved.target) then absolute(approved.target).GetOr(approved.target)
        else approved.target)
      && StringField(shown, "args", 0) == approved.args
      && StringField(shown, "work_dir", 0) == workDir
      && StringField(shown, "resolved_display_name", 0) == approved.displayName
      && (ExecutedLaunch(after, proposed.value) == Launch(path, approved.args, workDir, approved.displayName)
        <==> (LooksLikePath(approved.target) && LooksLikePath(path)
          && after.isRegularFile(approved.target) && after.absolute(approved.target) == path))
  {
    hide StringField, Print, RewrittenMembers, LooksLikePath, ReplaceStringField;
    var approved := ResolveTarget(before, StringField(arguments, "path_or_name", 0), StringField(arguments, "args", 0));
    var workDir := StringField(arguments, "work_dir", 0);
    RewrittenReadBack(approved.target, approved.args, workDir, approved.displayName, "path_or_name");
    RewrittenReadBack(approved.target, approved.args, workDir, approved.displayName, "args");
    RewrittenReadBack(approved.target, approved.args, workDir, approved.displayName, "work_dir");
    RewrittenReadBack(approved.target, approved.args, workDir, approved.displayName, "resolved_display_name");
    EmptyIsNoPath();
    if LooksLikePath(approved.target) && absolute(approved.target).Some? {
      var full := absolute(approved.target).value;
      RewrittenPath(approved.target, approved.args, workDir, approved.displayName, full, "args");
      RewrittenPath(approved.target, approved.args, workDir, approved.displayName, full, "work_dir");
      RewrittenPath(approved.target, approved.args, workDir, approved.displayName, full, "resolved_display_name");
    }
  }

  /** Showing another path in the rewritten call changes that field and no other. */
  lemma RewrittenPath(target: string, args: string, workDir: string, displayName: string, full: string, other: string)
    requires other == "args" || other == "work_dir" || other == "resolved_display_name"
    ensures var json := Print(JObj(RewrittenMembers(target, args, workDir, displayName)));
      var shown := ReplaceStringField(json, "path_or_name", full);
      StringField(shown, "path_or_name", 0) == full && StringField(shown, other, 0) == StringField(json, other, 0)
  {
    LaunchKeys();
    hide StringField, Print, FirstInMembers, ReplaceStringField, IsKey, Render, Lookup, WellFormed;
    var v := JObj(RewrittenMembers(target, args, workDir, displayName));
    assert Proper(v);
    RewrittenLookup(target, args, workDir, displayName, "path_or_name");
    LookupInDocument(v, "path_or_name");
    PrintIsRender(v);
    TokensForm(v);
    assert other != "path_or_name";
    ReplaceIsLens(Tokens(v), "path_or_name", full, "", other);
  }

  /** A machine whose installed-apps index knows "Calculator" as the bare name calc.exe, and
      whose registry knows calc.exe as something else. */
  function RenamedCalculator(): Machine {
    Machine(
      _ => false, s => s,
      s => if s == "calc.exe" then "C:\\other.exe" else "",
      s => if s == "Calculator" then "calc.exe" else "",
      _ => None, _ => "", _ => None)
  }

  lemma CalculatorResolves()
    ensures ResolveTarget(RenamedCalculator(), "Calculator", "") == Resolved("calc.exe", "", "installed_apps_index", "")
    ensures ResolveTarget(RenamedCalculator(), "calc.exe", "")
      == Resolved("C:\\other.exe", "", "app_paths_registry", "")
  {
    PlainNames();
    hide LooksLikePath;
  }

  lemma OtherIsPath()
    ensures LooksLikePath("C:\\other.exe")
  {
    var s := "C:\\other.exe";
    assert s[2..3] == "\\" && s[0..1] == "C" && s[1..2] == ":";
    FindFirst(s, "\\", 0, 2);
  }

  /** A tier may resolve to a bare name, which is not checked to exist; execution then resolves
      that name afresh and, on the very same machine, can launch something else. */
  lemma BareTargetMayChange(arguments: string)
    requires StringField(arguments, "path_or_name", 0) == "Calculator"
    requires StringField(arguments, "args", 0) == "" && StringField(arguments, "work_dir", 0) == ""
    ensures var proposed := PrecheckOpen(RenamedCalculator(), arguments);
      && proposed.Some?
      && StringField(proposed.value, "path_or_name", 0) == "calc.exe"
      && ExecutedLaunch(RenamedCalculator(), proposed.value) == Launch("C:\\other.exe", "", "", "")
  {
    hide StringField, Print, RewrittenMembers, ResolveTarget, RenamedCalculator, LooksLikePath;
    CalculatorResolves();
    OtherIsPath();
    RewrittenReadBack("calc.exe", "", "", "", "path_or_name");
    RewrittenReadBack("calc.exe", "", "", "", "args");
    RewrittenReadBack("calc.exe", "", "", "", "work_dir");
    RewrittenReadBack("calc.exe", "", "", "", "resolved_display_name");
  }

  lemma PlainNames()
    ensures !LooksLikePath("Calculator") && !LooksLikePath("calc.exe")
  {
    NoSeparator("Calculator");
    NoSeparator("calc.exe");
  }

  lemma NoSeparator(s: string)
    requires '\\' !in s && '/' !in s
    ensures !LooksLikePath(s)
  {
    forall k: nat ensures !Occurs(s, "\\", k) && !Occurs(s, "/", k) {
      if k + 1 <= |s| {
        assert s[k..k + 1][0] == s[k] && s[k] in s;
      }
    }
    FindNothing(s, "\\", 0);
    FindNothing(s, "/", 0);
  }
}

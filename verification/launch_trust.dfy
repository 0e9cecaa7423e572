/** The trust order of application launches, tier by tier: who decides what is proposed and what is
    launched, whatever the less trusted sources answer. */
module LaunchTrust {
  import opened Text
  import opened JsonCodec
  import opened JsonDocument
  import opened ApprovalPaths
  import opened LaunchResolution

  function NameIn(arguments: string): string { StringField(arguments, "path_or_name", 0) }

  function ArgsIn(arguments: string): string { StringField(arguments, "args", 0) }

  /** A text with a separator in it. */
  predicate HasSeparator(s: string) {
    exists i :: 0 <= i < |s| && (s[i] == '/' || s[i] == '\\')
  }

  lemma PathsHaveSeparators(s: string)
    ensures LooksLikePath(s) <==> HasSeparator(s)
  {
    hide Contains;
    if i :| 0 <= i < |s| && (s[i] == '/' || s[i] == '\\') {
      assert s[i..i + 1] == [s[i]];
      assert ['/'] == "/" && ['\\'] == "\\";
      OccursIsFound(s, [s[i]], i);
    } else {
      LacksWord(s, "/", 0);
      LacksWord(s, "\\", 0);
    }
  }

  /** The call is proposed with this target, these arguments and this display name, the directory
      as given; and carried out now it launches just that, when the target is a path at all. */
  predicate Decides(m: Machine, arguments: string, target: string, args: string, display: string) {
    var proposed := PrecheckOpen(m, arguments);
    var workDir, passed := StringField(arguments, "work_dir", 0), StringField(arguments, "resolved_display_name", 0);
    && proposed.Some?
    && StringField(proposed.value, "path_or_name", 0) == target && StringField(proposed.value, "args", 0) == args
    && StringField(proposed.value, "work_dir", 0) == workDir
    && StringField(proposed.value, "resolved_display_name", 0) == display
    && ExecutedLaunch(m, arguments)
      == if HasSeparator(target) then Launch(target, args, workDir, if passed != "" then passed else display)
        else NoLaunch
  }

  /** The call fails before anyone is asked, and launches nothing. */
  predicate Fails(m: Machine, arguments: string) {
    PrecheckOpen(m, arguments).None? && ExecutedLaunch(m, arguments) == NoLaunch
  }

  lemma ResolvedDecides(m: Machine, arguments: string)
    requires NameIn(arguments) != ""
    ensures match ResolveTarget(m, NameIn(arguments), ArgsIn(arguments))
      case Resolved(target, args, _, display) => Decides(m, arguments, target, args, display)
      case Unresolved(_) => Fails(m, arguments)
  {
    hide StringField, Print, RewrittenMembers, LooksLikePath, ResolveTarget, HasSeparator;
    var r := ResolveTarget(m, NameIn(arguments), ArgsIn(arguments));
    if r.Resolved? {
      var workDir := StringField(arguments, "work_dir", 0);
      PathsHaveSeparators(r.target);
      RewrittenReadBack(r.target, r.args, workDir, r.displayName, "path_or_name");
      RewrittenReadBack(r.target, r.args, workDir, r.displayName, "args");
      RewrittenReadBack(r.target, r.args, workDir, r.displayName, "work_dir");
      RewrittenReadBack(r.target, r.args, workDir, r.displayName, "resolved_display_name");
    }
  }

  /** A path given by the caller stands for itself when it is a regular file, and fails otherwise,
      whatever any tier knows. */
  lemma GivenPathDecides(m: Machine, arguments: string)
    requires HasSeparator(NameIn(arguments))
    ensures if m.isRegularFile(NameIn(arguments))
      then Decides(m, arguments, m.absolute(NameIn(arguments)), ArgsIn(arguments), "")
      else Fails(m, arguments)
  {
    hide StringField, LooksLikePath, Decides, Fails;
    PathsHaveSeparators(NameIn(arguments));
    ResolvedDecides(m, arguments);
  }

  /** A bare name the registry knows: whatever index, table and PATH answer. */
  lemma RegistryDecides(m: Machine, arguments: string)
    requires NameIn(arguments) != "" && !HasSeparator(NameIn(arguments)) && m.appPathsRegistry(NameIn(arguments)) != ""
    ensures Decides(m, arguments, m.appPathsRegistry(NameIn(arguments)), ArgsIn(arguments), "")
  {
    hide StringField, LooksLikePath, Decides, Fails;
    PathsHaveSeparators(NameIn(arguments));
    ResolvedDecides(m, arguments);
  }

  /** Without a registry answer the index decides, whatever table and PATH answer. */
  lemma IndexDecides(m: Machine, arguments: string)
    requires NameIn(arguments) != "" && !HasSeparator(NameIn(arguments)) && m.appPathsRegistry(NameIn(arguments)) == ""
    requires m.installedApps(NameIn(arguments)) != ""
    ensures Decides(m, arguments, m.installedApps(NameIn(arguments)), ArgsIn(arguments), "")
  {
    hide StringField, LooksLikePath, Decides, Fails;
    PathsHaveSeparators(NameIn(arguments));
    ResolvedDecides(m, arguments);
  }

  /** Without both the curated table decides, whatever PATH answers: with the caller's arguments if
      there are any, its display name, and a failure when the executable is not where it should be. */
  lemma TableDecides(m: Machine, arguments: string)
    requires NameIn(arguments) != "" && !HasSeparator(NameIn(arguments)) && m.appPathsRegistry(NameIn(arguments)) == ""
    requires m.installedApps(NameIn(arguments)) == "" && m.knownLocation(NameIn(arguments)).Some?
    ensures var known := m.knownLocation(NameIn(arguments)).value;
      var path := m.systemExecutable(known.executable);
      if path == "" then Fails(m, arguments)
      else Decides(m, arguments, path, if ArgsIn(arguments) != "" then ArgsIn(arguments) else known.args,
        known.displayName)
  {
    hide StringField, LooksLikePath, Decides, Fails;
    PathsHaveSeparators(NameIn(arguments));
    ResolvedDecides(m, arguments);
  }

  /** The PATH search counts only when all three are silent; when it is too, the call fails. */
  lemma PathDecidesLast(m: Machine, arguments: string)
    requires NameIn(arguments) != "" && !HasSeparator(NameIn(arguments)) && m.appPathsRegistry(NameIn(arguments)) == ""
    requires m.installedApps(NameIn(arguments)) == "" && m.knownLocation(NameIn(arguments)).None?
    ensures match m.which(NameIn(arguments))
      case Some(path) => Decides(m, arguments, path, ArgsIn(arguments), "")
      case None => Fails(m, arguments)
  {
    hide StringField, LooksLikePath, Decides, Fails;
    PathsHaveSeparators(NameIn(arguments));
    ResolvedDecides(m, arguments);
  }

  /** A call without a name is proposed as it is, and launches nothing. */
  lemma NamelessLaunchesNothing(m: Machine, arguments: string)
    requires NameIn(arguments) == ""
    ensures PrecheckOpen(m, arguments) == Some(arguments) && ExecutedLaunch(m, arguments) == NoLaunch
  {
  }
}

/** Failure counting and reload of tool plugins (internal/plugin/manager.go). What a
    plugin, its loader and the plugin directory do are parameters of the calls. */
module PluginRecovery {
  import opened Common

  // A loaded plugin instance; serial tells instances of one name apart.
  datatype Tool = Tool(name: string, serial: nat)

  datatype Path = Path(dir: string, base: string)

  datatype LoadAnswer = Loaded(tool: Tool) | Refused

  // What a reload meets: the directory listing, unless reading it fails; the loader;
  // and whether the old instance closes.
  datatype ReloadAnswers = ReloadAnswers(listing: Option<seq<Path>>, load: LoadAnswer, closes: bool)

  datatype Answers = Answers(first: bool, healthy: bool, reload: ReloadAnswers, retry: bool)

  datatype Outcome =
    | Succeeded
    | Unavailable
    | NotFound
    | Failed
    | ReloadFailed
    | MissingAfterReload

  // ---------- histories ----------

  // What happened to a plugin since it was last loaded.
  datatype Entry = Attempt(ok: bool) | Reloaded

  type History = seq<Entry>

  function Last(h: History): Entry
    requires h != []
  {
    h[|h| - 1]
  }

  function Attempts(h: History): seq<bool> {
    if h == [] then []
    else Attempts(h[..|h| - 1]) + (if Last(h).Attempt? then [Last(h).ok] else [])
  }

  function Reloads(h: History): nat {
    if h == [] then 0 else Reloads(h[..|h| - 1]) + (if Last(h).Reloaded? then 1 else 0)
  }

  // The number of failed attempts since the last successful one.
  function Trailing(h: History): nat {
    if h == [] then 0
    else match Last(h)
      case Reloaded => Trailing(h[..|h| - 1])
      case Attempt(ok) => if ok then 0 else Trailing(h[..|h| - 1]) + 1
  }

  /** Trailing is the length of the longest run of failures that ends the attempts. */
  lemma {:induction false} TrailingRun(h: History)
    ensures Trailing(h) <= |Attempts(h)|
    ensures forall k :: |Attempts(h)| - Trailing(h) <= k < |Attempts(h)| ==> !Attempts(h)[k]
    ensures Trailing(h) < |Attempts(h)| ==> Attempts(h)[|Attempts(h)| - Trailing(h) - 1]
  {
    if h != [] {
      TrailingRun(h[..|h| - 1]);
    }
  }

  // Given up: at least two failures in a row, and no reload after the last.
  predicate GivenUp(h: History) {
    Trailing(h) >= 2 && h != [] && Last(h).Attempt?
  }

  /** The failure count and the unavailable flag that a history stands for. */
  predicate Tracks(count: nat, givenUp: bool, h: History) {
    count == Trailing(h) && (givenUp <==> GivenUp(h))
  }

  lemma AfterReload(count: nat, givenUp: bool, h: History)
    requires Tracks(count, givenUp, h)
    ensures Tracks(count, false, h + [Reloaded])
  {
    assert (h + [Reloaded])[..|h|] == h;
  }

  lemma AfterSuccess(h: History)
    ensures Tracks(0, false, h + [Attempt(true)])
  {
    assert Last(h + [Attempt(true)]) == Attempt(true);
  }

  lemma AfterFailure(count: nat, h: History)
    requires Tracks(count, false, h)
    ensures Tracks(count + 1, count + 1 >= 2, h + [Attempt(false)])
  {
    assert (h + [Attempt(false)])[..|h|] == h;
  }

  // What one call adds to a history: at most two attempts and one reload.
  lemma AtMostTwo(done: History, first: bool, retry: bool)
    requires done <= [Attempt(first), Reloaded, Attempt(retry)]
    ensures |Attempts(done)| <= 2 && Reloads(done) <= 1
  {
    if done != [] {
      assert done[0] == Attempt(first) && done[..1][..0] == [];
      assert Attempts(done[..1]) == [first] && Reloads(done[..1]) == 0;
    }
    if |done| >= 2 {
      assert done[1] == Reloaded && done[..2][..1] == done[..1];
      assert Attempts(done[..2]) == [first] && Reloads(done[..2]) == 1;
    }
    if |done| <= 2 {
      assert done == done[..|done|];
    } else {
      assert done[2] == Attempt(retry);
    }
  }

  function FirstNamed(listing: seq<Path>, base: string): (p: Option<Path>)
    ensures p.Some? <==> exists q :: q in listing && q.base == base
    ensures p.Some? ==> exists i ::
      && 0 <= i < |listing| && listing[i] == p.value && p.value.base == base
      && forall j :: 0 <= j < i ==> listing[j].base != base
  {
    if listing == [] then None
    else if listing[0].base == base then Some(listing[0])
    else FirstNamed(listing[1..], base)
  }

  class PluginManager {
    var loadedPlugins: map<string, Tool>
    var loadedPaths: map<string, Path>
    var failureCounts: map<string, nat>
    var unavailable: set<string>
    ghost var history: map<string, History>   // of each loaded plugin, kept through renames by a reload

    /** Counters and flags are what the histories stand for. */
    ghost predicate Valid()
      reads this
    {
      && SameNames(loadedPlugins, loadedPaths, failureCounts, unavailable, history)
      && AllTracked(failureCounts, unavailable, history)
    }

    lemma Names(name: string)
      requires Valid()
      ensures (name in loadedPlugins <==> name in history) && (name in unavailable ==> name in history)
      ensures name in history <==> name in loadedPaths
      ensures name in history ==> name in failureCounts && failureCounts[name] == Trailing(history[name])
    {
      NamesAgree(loadedPlugins, loadedPaths, failureCounts, unavailable, history, name);
    }

    constructor ()
      ensures Valid() && loadedPlugins == map[] && history == map[]
    {
      loadedPlugins, loadedPaths, failureCounts, unavailable, history := map[], map[], map[], {}, map[];
    }

    /** A load that succeeds starts a history. */
    method Load(cancelled: bool, path: Option<Path>, answer: LoadAnswer) returns (tool: Option<Tool>)
      requires Valid()
      modifies this
      ensures Valid()
      ensures tool == if cancelled || path.None? || answer.Refused? then None else Some(answer.tool)
      ensures tool.None? ==>
        history == old(history) && loadedPlugins == old(loadedPlugins) && loadedPaths == old(loadedPaths)
      ensures tool.Some? ==>
        && history == old(history)[tool.value.name := []]
        && loadedPlugins == old(loadedPlugins)[tool.value.name := tool.value]
        && loadedPaths == old(loadedPaths)[tool.value.name := path.value]
    {
      if cancelled || path.None? || answer.Refused? {
        return None;
      }
      hide SameNames;
      hide AllTracked;
      var loaded := answer.tool;
      loadedPlugins := loadedPlugins[loaded.name := loaded];
      loadedPaths := loadedPaths[loaded.name := path.value];
      failureCounts := failureCounts[loaded.name := 0];
      unavailable := unavailable - {loaded.name};
      history := history[loaded.name := []];
      Put(old(loadedPlugins), old(loadedPaths), old(failureCounts), old(unavailable), old(history),
          loaded, path.value, 0, []);
      return Some(loaded);
    }

    // The directory still holds a plugin named like the tracked one, it loads, and
    // the tracked one closes.
    predicate CanReload(name: string, answers: ReloadAnswers)
      reads this`loadedPaths
    {
      && name in loadedPaths && answers.listing.Some?
      && (exists q :: q in answers.listing.value && q.base == loadedPaths[name].base)
      && answers.load.Loaded? && answers.closes
    }

    // Goes through the listing for the stored base name.
    method ReloadPath(name: string, listing: Option<seq<Path>>) returns (path: Option<Path>)
      ensures listing.None? || name !in loadedPaths ==> path.None?
      ensures listing.Some? && name in loadedPaths ==> path == FirstNamed(listing.value, loadedPaths[name].base)
    {
      if listing.None? || name !in loadedPaths {
        return None;
      }
      var paths, base := listing.value, loadedPaths[name].base;
      assert paths[0..] == paths;
      var i := 0;
      while i < |paths|
        invariant 0 <= i <= |paths| && FirstNamed(paths, base) == FirstNamed(paths[i..], base)
      {
        assert paths[i..][0] == paths[i] && paths[i..][1..] == paths[i + 1..];
        if paths[i].base == base {
          return Some(paths[i]);
        }
        i := i + 1;
      }
      return None;
    }

    /** A reload that fails changes nothing. One that succeeds puts the new instance,
        under its own name, in the place of the old one, with its history and so its
        failure count; it is available again. */
    method ReloadTool(name: string, answers: ReloadAnswers) returns (ok: bool)
      requires Valid()
      modifies this
      ensures Valid()
      ensures ok <==> old(CanReload(name, answers))
      ensures ok ==> name in old(history) && answers.load.Loaded?
      ensures ok ==>
        && history == Renamed(old(history), name, answers.load.tool.name, [Reloaded])
        && loadedPlugins == (old(loadedPlugins) - {name})[answers.load.tool.name := answers.load.tool]
        && unavailable == old(unavailable) - {name, answers.load.tool.name}
      ensures ok ==>
        var path := FirstNamed(answers.listing.value, old(loadedPaths)[name].base).value;
        loadedPaths == (old(loadedPaths) - {name})[answers.load.tool.name := path]
      ensures !ok ==>
        && history == old(history) && loadedPlugins == old(loadedPlugins) && loadedPaths == old(loadedPaths)
        && unavailable == old(unavailable)
    {
      hide *;
      Names(name);
      CanReloadIff(name, answers);
      if name !in loadedPlugins {
        return false;
      }
      var previousFailureCount := failureCounts[name];
      var path := ReloadPath(name, answers.listing);
      if path.None? || answers.load.Refused? || !answers.closes {
        return false;
      }
      Reinstate(name, answers.load.tool, path.value, previousFailureCount);
      return true;
    }

    lemma CanReloadIff(name: string, answers: ReloadAnswers)
      ensures CanReload(name, answers) <==>
        && name in loadedPaths && answers.listing.Some?
        && FirstNamed(answers.listing.value, loadedPaths[name].base).Some?
        && answers.load.Loaded? && answers.closes
    {
    }

    // Drops the tracking of name and starts that of the tool with the count kept.
    method Reinstate(name: string, tool: Tool, path: Path, previousFailureCount: nat)
      requires Valid() && name in history && previousFailureCount == failureCounts[name]
      modifies this
      ensures Valid() && history == Renamed(old(history), name, tool.name, [Reloaded])
      ensures loadedPlugins == (old(loadedPlugins) - {name})[tool.name := tool]
      ensures loadedPaths == (old(loadedPaths) - {name})[tool.name := path]
      ensures unavailable == old(unavailable) - {name, tool.name}
    {
      hide SameNames;
      hide AllTracked;
      hide Tracks;
      ghost var kept := history[name] + [Reloaded];
      Kept(failureCounts, unavailable, history, name);
      AfterReload(previousFailureCount, name in unavailable, history[name]);
      DropPut(history, name, tool.name, kept);
      Drop(loadedPlugins, loadedPaths, failureCounts, unavailable, history, name);
      history := history - {name};
      loadedPlugins := loadedPlugins - {name};
      loadedPaths := loadedPaths - {name};
      failureCounts := failureCounts - {name};
      unavailable := unavailable - {name};
      Put(loadedPlugins, loadedPaths, failureCounts, unavailable, history, tool, path, previousFailureCount, kept);
      history := history[tool.name := kept];
      loadedPlugins := loadedPlugins[tool.name := tool];
      loadedPaths := loadedPaths[tool.name := path];
      failureCounts := failureCounts[tool.name := previousFailureCount];
      unavailable := unavailable - {tool.name};
    }

    // Records a successful attempt.
    method ResetFailureCount(name: string)
      requires Valid() && name in history && name !in unavailable
      modifies this`failureCounts, this`unavailable, this`history
      ensures Valid() && history == Renamed(old(history), name, name, [Attempt(true)])
      ensures unavailable == old(unavailable)
    {
      hide SameNames;
      hide AllTracked;
      hide Tracks;
      Recount(loadedPlugins, loadedPaths, failureCounts, unavailable, history, name, true);
      history := Renamed(history, name, name, [Attempt(true)]);
      failureCounts := failureCounts[name := 0];
      unavailable := unavailable - {name};
    }

    // Records a failed attempt and gives the plugin up after the second in a row.
    method CountFailure(name: string) returns (givenUp: bool)
      requires Valid() && name in history && name !in unavailable
      modifies this`failureCounts, this`unavailable, this`history
      ensures Valid() && history == Renamed(old(history), name, name, [Attempt(false)])
      ensures givenUp == (Trailing(old(history)[name]) >= 1)
      ensures unavailable == if givenUp then old(unavailable) + {name} else old(unavailable)
    {
      hide SameNames;
      hide AllTracked;
      hide Tracks;
      hide Trailing;
      Names(name);
      Recount(loadedPlugins, loadedPaths, failureCounts, unavailable, history, name, false);
      history := Renamed(history, name, name, [Attempt(false)]);
      failureCounts := failureCounts[name := failureCounts[name] + 1];
      givenUp := failureCounts[name] >= 2;
      assert unavailable - {name} == unavailable;
      if givenUp {
        unavailable := unavailable + {name};
      }
    }

    /** One call makes at most two attempts and one reload between them, and none
        while the plugin is unavailable; it reports unavailable exactly when the
        plugin is so afterwards, and succeeds exactly when its last attempt did. A
        reload that renames the plugin moves its history. No other history changes. */
    method ExecuteWithRecovery(name: string, answers: Answers)
      returns (r: Outcome, ghost done: History, ghost finalName: string)
      requires Valid()
      modifies this
      ensures Valid()
      ensures done == [] <==> name !in old(history) || name in old(unavailable)
      ensures done == [] ==> history == old(history) && loadedPlugins == old(loadedPlugins)
      ensures done != [] ==> history == Renamed(old(history), name, finalName, done)
      ensures done <= [Attempt(answers.first), Reloaded, Attempt(answers.retry)]
      ensures |done| >= 2 ==> !answers.first && !answers.healthy && Trailing(old(history)[name]) == 0
      ensures r.NotFound? <==> name !in old(history) && name !in old(unavailable)
      ensures r.Unavailable? <==> name in unavailable
      ensures r.Succeeded? <==> done != [] && done[|done| - 1] == Attempt(true)
      ensures r.Failed? ==> done == [Attempt(false)] && answers.healthy
      ensures r.ReloadFailed? ==> done == [Attempt(false)] && !answers.healthy && !old(CanReload(name, answers.reload))
      ensures r.MissingAfterReload? ==> done == [Attempt(false), Reloaded] && name !in history
      ensures finalName != name ==> r.MissingAfterReload?
    {
      hide *;
      Names(name);
      done, finalName := [], name;
      if name in unavailable {
        return Unavailable, done, finalName;
      }
      if name !in loadedPlugins {
        return NotFound, done, finalName;
      }
      if answers.first {
        ResetFailureCount(name);
        return Succeeded, [Attempt(true)], finalName;
      }
      var givenUp := CountFailure(name);
      done := [Attempt(false)];
      if givenUp {
        return Unavailable, done, finalName;
      }
      if answers.healthy {
        return Failed, done, finalName;
      }
      r, done, finalName := ReloadAndRetry(name, answers, old(history));
    }

    // The second half of a call, after a failed attempt and a failed health check.
    method ReloadAndRetry(name: string, answers: Answers, ghost before: map<string, History>)
      returns (r: Outcome, ghost done: History, ghost finalName: string)
      requires Valid() && name in before && Trailing(before[name]) == 0 && name !in unavailable
      requires history == Renamed(before, name, name, [Attempt(false)]) && !answers.first
      modifies this
      ensures Valid() && history == Renamed(before, name, finalName, done)
      ensures [Attempt(false)] <= done <= [Attempt(answers.first), Reloaded, Attempt(answers.retry)]
      ensures r.Unavailable? <==> name in unavailable
      ensures r.Succeeded? <==> done[|done| - 1] == Attempt(true)
      ensures r.ReloadFailed? ==> done == [Attempt(false)] && !old(CanReload(name, answers.reload))
      ensures r.MissingAfterReload? ==> done == [Attempt(false), Reloaded] && name !in history
      ensures finalName != name ==> r.MissingAfterReload?
      ensures !r.Failed? && !r.NotFound?
    {
      hide *;
      Names(name);
      InRenamed(before, name, name, [Attempt(false)]);
      done, finalName := [Attempt(false)], name;
      var reloaded := ReloadTool(name, answers.reload);
      if !reloaded {
        return ReloadFailed, done, finalName;
      }
      RenamedTwice(before, name, answers.reload.load.tool.name, done, [Reloaded]);
      done := done + [Reloaded];
      Names(name);
      if name !in loadedPlugins {
        return MissingAfterReload, done, answers.reload.load.tool.name;
      }
      Continued(before, name, answers.reload.load.tool.name, done);
      if answers.retry {
        RenamedTwice(before, name, name, done, [Attempt(true)]);
        ResetFailureCount(name);
        return Succeeded, done + [Attempt(true)], finalName;
      }
      RenamedTwice(before, name, name, done, [Attempt(false)]);
      var givenUp := CountFailure(name);
      done := done + [Attempt(false)];
      r := if givenUp then Unavailable else Failed;
    }

    method CloseAll()
      requires Valid()
      modifies this
      ensures Valid() && history == map[] && loadedPlugins == map[]
    {
      loadedPlugins, loadedPaths, failureCounts, unavailable, history := map[], map[], map[], {}, map[];
    }
  }

  // The histories with what was done added to that of name, which goes on under to.
  ghost function Renamed(histories: map<string, History>, name: string, to: string, done: History): map<string, History>
    requires name in histories
  {
    if to == name then histories[name := histories[name] + done]
    else (histories - {name})[to := histories[name] + done]
  }

  lemma InRenamed(histories: map<string, History>, name: string, to: string, done: History)
    requires name in histories
    ensures to in Renamed(histories, name, to, done) && (name in Renamed(histories, name, to, done) <==> to == name)
  {
  }

  // After one failure and a reload one failure is counted.
  lemma Continued(histories: map<string, History>, name: string, to: string, done: History)
    requires name in histories && Trailing(histories[name]) == 0 && done == [Attempt(false), Reloaded]
    requires name in Renamed(histories, name, to, done)
    ensures to == name && Trailing(Renamed(histories, name, name, done)[name]) == 1
  {
    var h := histories[name];
    assert h + done == (h + [Attempt(false)]) + [Reloaded];
    Counted(0, h, false);
  }

  lemma DropPut(histories: map<string, History>, name: string, to: string, kept: History)
    requires name in histories && kept == histories[name] + [Reloaded]
    ensures (histories - {name})[to := kept] == Renamed(histories, name, to, [Reloaded])
  {
    if to == name {
      assert (histories - {name})[to := kept] == histories[name := kept];
    }
  }

  lemma RenamedTwice(histories: map<string, History>, name: string, to: string, a: History, b: History)
    requires name in histories
    ensures name in Renamed(histories, name, name, a)
    ensures Renamed(Renamed(histories, name, name, a), name, to, b) == Renamed(histories, name, to, a + b)
  {
    var once := histories[name := histories[name] + a];
    assert histories[name] + a + b == histories[name] + (a + b);
    assert to != name ==> once - {name} == histories - {name};
  }

  // ---------- what an update of the maps keeps ----------

  ghost predicate SameNames(loaded: map<string, Tool>, paths: map<string, Path>, counts: map<string, nat>,
                            unavailable: set<string>, history: map<string, History>)
  {
    && loaded.Keys == history.Keys && paths.Keys == history.Keys && counts.Keys == history.Keys
    && unavailable <= history.Keys
    && forall name :: name in loaded ==> loaded[name].name == name
  }

  ghost predicate AllTracked(counts: map<string, nat>, unavailable: set<string>, history: map<string, History>) {
    forall name :: name in history ==>
      name in counts && Tracks(counts[name], name in unavailable, history[name])
  }

  lemma NamesAgree(loaded: map<string, Tool>, paths: map<string, Path>, counts: map<string, nat>,
                   unavailable: set<string>, history: map<string, History>, name: string)
    requires SameNames(loaded, paths, counts, unavailable, history)
    requires AllTracked(counts, unavailable, history)
    ensures (name in loaded <==> name in history) && (name in counts <==> name in history)
    ensures name in history <==> name in paths
    ensures name in unavailable ==> name in history
    ensures name in history ==> counts[name] == Trailing(history[name])
  {
    assert name in loaded.Keys <==> name in history.Keys;
    assert name in counts.Keys <==> name in history.Keys;
    assert name in paths.Keys <==> name in history.Keys;
  }

  lemma Kept(counts: map<string, nat>, unavailable: set<string>, history: map<string, History>, name: string)
    requires AllTracked(counts, unavailable, history) && name in history
    ensures name in counts && Tracks(counts[name], name in unavailable, history[name])
  {
  }

  lemma Put(loaded: map<string, Tool>, paths: map<string, Path>, counts: map<string, nat>,
            unavailable: set<string>, history: map<string, History>,
            tool: Tool, path: Path, count: nat, h: History)
    requires SameNames(loaded, paths, counts, unavailable, history)
    requires AllTracked(counts, unavailable, history) && Tracks(count, false, h)
    ensures SameNames(loaded[tool.name := tool], paths[tool.name := path], counts[tool.name := count],
                      unavailable - {tool.name}, history[tool.name := h])
    ensures AllTracked(counts[tool.name := count], unavailable - {tool.name}, history[tool.name := h])
  {
    hide Tracks;
  }

  lemma Drop(loaded: map<string, Tool>, paths: map<string, Path>, counts: map<string, nat>,
             unavailable: set<string>, history: map<string, History>, name: string)
    requires SameNames(loaded, paths, counts, unavailable, history)
    requires AllTracked(counts, unavailable, history)
    ensures SameNames(loaded - {name}, paths - {name}, counts - {name}, unavailable - {name}, history - {name})
    ensures AllTracked(counts - {name}, unavailable - {name}, history - {name})
  {
    hide Tracks;
  }

  // One attempt, counted.
  lemma Recount(loaded: map<string, Tool>, paths: map<string, Path>, counts: map<string, nat>,
                unavailable: set<string>, history: map<string, History>, name: string, ok: bool)
    requires SameNames(loaded, paths, counts, unavailable, history)
    requires AllTracked(counts, unavailable, history) && name in history && name !in unavailable
    ensures
      var count := if ok then 0 else Trailing(history[name]) + 1;
      var flags := if count >= 2 then unavailable + {name} else unavailable - {name};
      var after := Renamed(history, name, name, [Attempt(ok)]);
      && SameNames(loaded, paths, counts[name := count], flags, after)
      && AllTracked(counts[name := count], flags, after)
  {
    hide Tracks;
    Kept(counts, unavailable, history, name);
    Counted(counts[name], history[name], ok);
  }

  lemma Counted(count: nat, h: History, ok: bool)
    requires Tracks(count, false, h)
    ensures count == Trailing(h)
    ensures Tracks(if ok then 0 else count + 1, !ok && count + 1 >= 2, h + [Attempt(ok)])
  {
    if ok {
      AfterSuccess(h);
    } else {
      AfterFailure(count, h);
    }
  }
}

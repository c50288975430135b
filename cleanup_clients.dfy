/**
  The connectivity gate of server/cleanup-clients.py: the script that pings the
  tiles an experiment targets, aborts or proceeds depending on how many answered,
  and then cleans their home directories.

  The inventory lookup (`get_target_hosts`) and the two playbook runs
  (`run_playbook`) are inputs: a host list, and for each playbook the
  space-separated string of hosts it reached together with their number. Hosts
  are given by their `str` form.
*/
module CleanupClients {
  import opened Wrappers

  // ---------------------------------------------------------------------------
  // Python's str.split(sep) and sep.join(parts)
  // ---------------------------------------------------------------------------

  /** `sep.join(parts)` for a one-character separator. */
  function Join(parts: seq<string>, sep: char): string {
    if |parts| == 0 then ""
    else if |parts| == 1 then parts[0]
    else parts[0] + [sep] + Join(parts[1..], sep)
  }

  /** `s.split(sep)` for a one-character separator: never empty, no part holds the
      separator, and joining the parts gives `s` back. */
  function Split(s: string, sep: char): (parts: seq<string>)
    ensures |parts| >= 1
    ensures forall i :: 0 <= i < |parts| ==> sep !in parts[i]
    ensures Join(parts, sep) == s
  {
    if |s| == 0 then [""]
    else
      var rest := Split(s[1..], sep);
      if s[0] == sep then
        assert ([""] + rest)[1..] == rest;
        [""] + rest
      else
        var parts := [[s[0]] + rest[0]] + rest[1..];
        assert parts[1..] == rest[1..];
        assert |rest| > 1 ==> rest == [rest[0]] + rest[1..] && Join(rest, sep) == rest[0] + [sep] + Join(rest[1..], sep);
        parts
  }

  /** Joining one more part. */
  lemma {:induction false} JoinSnoc(parts: seq<string>, t: string, sep: char)
    ensures Join(parts + [t], sep) == if parts == [] then t else Join(parts, sep) + [sep] + t
  {
    if |parts| > 1 {
      assert (parts + [t])[1..] == parts[1..] + [t];
      JoinSnoc(parts[1..], t, sep);
    } else if |parts| == 1 {
      assert (parts + [t])[1..] == [t];
    }
  }

  /** Splitting text that starts with a part free of the separator. */
  lemma {:induction false} SplitPrefix(p: string, t: string, sep: char)
    requires sep !in p
    ensures Split(p + t, sep) == [p + Split(t, sep)[0]] + Split(t, sep)[1..]
  {
    var tail := Split(t, sep);
    if p != [] {
      assert (p + t)[0] == p[0] && (p + t)[1..] == p[1..] + t;
      SplitPrefix(p[1..], t, sep);
      var rest := Split(p[1..] + t, sep);
      assert rest == [p[1..] + tail[0]] + tail[1..];
      assert Split(p + t, sep) == [[p[0]] + rest[0]] + rest[1..];
      assert [p[0]] + (p[1..] + tail[0]) == p + tail[0];
    } else {
      assert p + t == t && p + tail[0] == tail[0] && tail == [tail[0]] + tail[1..];
    }
  }

  /** Splitting what was joined gives the parts back, when no part holds the separator. */
  lemma {:induction false} SplitJoin(parts: seq<string>, sep: char)
    requires |parts| >= 1
    requires forall i :: 0 <= i < |parts| ==> sep !in parts[i]
    ensures Split(Join(parts, sep), sep) == parts
  {
    if |parts| == 1 {
      SplitPrefix(parts[0], "", sep);
      assert parts[0] + "" == parts[0];
    } else {
      var rest := Join(parts[1..], sep);
      SplitJoin(parts[1..], sep);
      assert parts[0] + [sep] + rest == parts[0] + ([sep] + rest);
      SplitPrefix(parts[0], [sep] + rest, sep);
      assert ([sep] + rest)[0] == sep && ([sep] + rest)[1..] == rest;
      assert Split([sep] + rest, sep) == [""] + Split(rest, sep);
      assert Split([sep] + rest, sep)[0] == "" && Split([sep] + rest, sep)[1..] == parts[1..];
      assert Join(parts, sep) == parts[0] + ([sep] + rest);
      assert parts[0] + "" == parts[0];
      assert parts == [parts[0]] + parts[1..];
    }
  }

  // ---------------------------------------------------------------------------
  // The inactive-tile list
  // ---------------------------------------------------------------------------

  /** The hosts of `hosts`, in their original order, that are not among `active`. */
  function Inactive(hosts: seq<string>, active: seq<string>): (r: seq<string>)
    ensures forall h :: h in r <==> h in hosts && h !in active
    ensures |r| <= |hosts|
  {
    if hosts == [] then []
    else
      var rest := Inactive(hosts[..|hosts| - 1], active);
      var last := hosts[|hosts| - 1];
      assert hosts == hosts[..|hosts| - 1] + [last];
      if last in active then rest else rest + [last]
  }

  /** `parts` without its leading empty strings. */
  function DropLeadingEmpty(parts: seq<string>): (r: seq<string>)
    ensures |r| <= |parts| && r == parts[|parts| - |r|..]
    ensures r != [] ==> r[0] != ""
    ensures forall i :: 0 <= i < |parts| - |r| ==> parts[i] == ""
  {
    if parts == [] || parts[0] != "" then parts else DropLeadingEmpty(parts[1..])
  }

  /** Dropping leading empty strings from a list that grew by one. */
  lemma {:induction false} DropLeadingEmptySnoc(parts: seq<string>, t: string)
    ensures DropLeadingEmpty(parts + [t]) ==
      if DropLeadingEmpty(parts) == [] then (if t == "" then [] else [t])
      else DropLeadingEmpty(parts) + [t]
  {
    if parts != [] && parts[0] == "" {
      assert (parts + [t])[1..] == parts[1..] + [t];
      DropLeadingEmptySnoc(parts[1..], t);
    }
  }

  /** The string the script prints after "Inactive tiles:": the hosts not among
      the space-separated active tiles, separated by single spaces. The accumulating
      loop adds no separator while nothing has been accumulated, so empty host names
      at the front leave no trace. */
  function InactiveString(hosts: seq<string>, activeTiles: string): string {
    Join(DropLeadingEmpty(Inactive(hosts, Split(activeTiles, ' '))), ' ')
  }

  /** One pass of the loop of lines 62-66, stated on the accumulated string. */
  lemma InactiveListStep(hostList: seq<string>, i: nat, activeList: seq<string>)
    requires i < |hostList|
    ensures var acc := Join(DropLeadingEmpty(Inactive(hostList[..i], activeList)), ' ');
      var t := hostList[i];
      Join(DropLeadingEmpty(Inactive(hostList[..i + 1], activeList)), ' ') ==
        if t in activeList then acc else if |acc| > 0 then acc + " " + t else acc + t
  {
    var t := hostList[i];
    var before := Inactive(hostList[..i], activeList);
    assert hostList[..i + 1][..i] == hostList[..i];
    if t !in activeList {
      assert Inactive(hostList[..i + 1], activeList) == before + [t];
      DropLeadingEmptySnoc(before, t);
      JoinSnoc(DropLeadingEmpty(before), t, ' ');
    } else {
      assert Inactive(hostList[..i + 1], activeList) == before;
    }
  }

  /** The loop of lines 61-66 that builds the inactive list with `+=`. */
  method InactiveList(hostList: seq<string>, activeTiles: string) returns (inactive: string)
    ensures inactive == InactiveString(hostList, activeTiles)
  {
    var activeList := Split(activeTiles, ' ');
    inactive := "";
    for i := 0 to |hostList|
      invariant inactive == Join(DropLeadingEmpty(Inactive(hostList[..i], activeList)), ' ')
    {
      InactiveListStep(hostList, i, activeList);
      var t := hostList[i];
      if t !in activeList {
        if |inactive| > 0 {
          inactive := inactive + " ";
        }
        inactive := inactive + t;
      }
    }
    assert hostList[..|hostList|] == hostList;
  }

  /** With non-empty host names the inactive string is `" ".join` of the inactive hosts. */
  lemma InactiveStringIsJoin(hosts: seq<string>, activeTiles: string)
    requires forall i :: 0 <= i < |hosts| ==> hosts[i] != ""
    ensures InactiveString(hosts, activeTiles) == Join(Inactive(hosts, Split(activeTiles, ' ')), ' ')
  {
    var r := Inactive(hosts, Split(activeTiles, ' '));
    if r != [] {
      assert r[0] in r;
    }
  }

  /** The inactive string is empty exactly when every inactive host has an empty
      name; with non-empty names, exactly when every host is active. */
  lemma InactiveStringEmpty(hosts: seq<string>, activeTiles: string)
    ensures InactiveString(hosts, activeTiles) == "" <==>
      forall h :: h in hosts && h !in Split(activeTiles, ' ') ==> h == ""
  {
    var r := Inactive(hosts, Split(activeTiles, ' '));
    var d := DropLeadingEmpty(r);
    if d != [] {
      assert |Join(d, ' ')| >= |d[0]| > 0;
      assert d[0] == r[|r| - |d|] && r[|r| - |d|] in r;
    } else {
      forall h | h in r
        ensures h == ""
      {
        var i :| 0 <= i < |r| && r[i] == h;
      }
    }
  }

  /** Text with no leading or trailing space and no two spaces in a row. */
  predicate SingleSpaced(s: string) {
    && (|s| > 0 ==> s[0] != ' ' && s[|s| - 1] != ' ')
    && forall i :: 0 <= i < |s| - 1 && s[i] == ' ' ==> s[i + 1] != ' '
  }

  /** Joining non-empty names without spaces gives single-spaced text. */
  lemma {:induction false} JoinSingleSpaced(parts: seq<string>)
    requires forall i :: 0 <= i < |parts| ==> parts[i] != "" && ' ' !in parts[i]
    ensures SingleSpaced(Join(parts, ' '))
    ensures parts != [] ==> Join(parts, ' ') != ""
  {
    if |parts| == 1 {
      assert parts[0][0] in parts[0] && parts[0][|parts[0]| - 1] in parts[0];
    } else if |parts| > 1 {
      var p, rest := parts[0], Join(parts[1..], ' ');
      JoinSingleSpaced(parts[1..]);
      var s := Join(parts, ' ');
      assert s == p + [' '] + rest;
      assert s[0] == p[0] && p[0] in p;
      forall i | 0 <= i < |s| - 1 && s[i] == ' '
        ensures s[i + 1] != ' '
      {
        if i == |p| {
          assert s[i + 1] == rest[0];
        } else {
          assert s[i] == rest[i - |p| - 1] && s[i + 1] == rest[i - |p|];
        }
      }
    }
  }

  /** With host names that are non-empty and hold no space, the inactive string is
      single-spaced, and splitting it at spaces gives back exactly the inactive
      hosts in their original order. */
  lemma InactiveStringRoundTrip(hosts: seq<string>, activeTiles: string)
    requires forall i :: 0 <= i < |hosts| ==> hosts[i] != "" && ' ' !in hosts[i]
    ensures SingleSpaced(InactiveString(hosts, activeTiles))
    ensures Inactive(hosts, Split(activeTiles, ' ')) != [] ==>
      Split(InactiveString(hosts, activeTiles), ' ') == Inactive(hosts, Split(activeTiles, ' '))
  {
    var r := Inactive(hosts, Split(activeTiles, ' '));
    InactiveStringIsJoin(hosts, activeTiles);
    forall i | 0 <= i < |r|
      ensures r[i] != "" && ' ' !in r[i]
    {
      assert r[i] in r;
      var j :| 0 <= j < |hosts| && hosts[j] == r[i];
    }
    JoinSingleSpaced(r);
    if r != [] {
      SplitJoin(r, ' ');
    }
  }

  // ---------------------------------------------------------------------------
  // The script
  // ---------------------------------------------------------------------------

  /** The experiment settings the script reads. */
  datatype Settings = Settings(
    tiles: Option<string>,
    testConnectivity: Option<bool>,
    haltOnConnectivityFailure: Option<bool>)

  /** What `run_playbook` returns: the space-separated hosts it reached, and how many. */
  datatype PlaybookResult = PlaybookResult(activeTiles: string, activeCount: int)

  datatype Playbook = PingPlaybook | CleanHomePlaybook

  /** One `run_playbook` call and the `hosts` argument it was given. */
  datatype PlaybookRun = PlaybookRun(playbook: Playbook, hosts: string)

  /** How the script ends. */
  datatype Outcome =
    | RepoMissing                                   // the tile-management repository is absent
    | NoTiles                                       // the settings target no tiles
    | Aborted(active: string, inactive: string)     // not every tile answered the ping
    | Finished(proceededPartially: bool, countChanged: bool, cleanedTiles: string)

  /** The value passed to `sys.exit`, or 0 when the script runs to its end. A POSIX
      shell reports a negative value modulo 256 (-3 as 253). */
  function ExitCode(o: Outcome): (code: int)
    ensures code == 0 <==> o.Finished?
    ensures code == -1 <==> o.RepoMissing?
    ensures code == -2 <==> o.NoTiles?
    ensures code == -3 <==> o.Aborted?
  {
    match o
    case RepoMissing => -1
    case NoTiles => -2
    case Aborted(_, _) => -3
    case Finished(_, _, _) => 0
  }

  /** A whole run of the script: the outcome and the playbooks it ran, in order. */
  datatype Run = Run(outcome: Outcome, playbooks: seq<PlaybookRun>)

  /** The top-level logic of the script, with the repository check, the inventory
      and the two playbook results as inputs. */
  method Cleanup(repoPresent: bool, settings: Settings, hostList: seq<string>,
                 ping: PlaybookResult, clean: PlaybookResult) returns (run: Run)
    ensures !repoPresent ==> run == Run(RepoMissing, [])
    ensures repoPresent && settings.tiles.GetOr("") == "" ==> run == Run(NoTiles, [])
    // both flags default to true
    ensures repoPresent && settings.tiles.GetOr("") != ""
            && settings.testConnectivity.None? && settings.haltOnConnectivityFailure.None? ==>
      (run.outcome.Aborted? <==> ping.activeCount != |hostList|)
    // abort iff connectivity is tested, the counts differ and halting is on
    ensures run.outcome.Aborted? <==>
      && repoPresent && settings.tiles.GetOr("") != ""
      && settings.testConnectivity.GetOr(true)
      && ping.activeCount != |hostList|
      && settings.haltOnConnectivityFailure.GetOr(true)
    ensures run.outcome.Aborted? ==>
      && run.outcome == Aborted(ping.activeTiles, InactiveString(hostList, ping.activeTiles))
      && run.playbooks == [PlaybookRun(PingPlaybook, settings.tiles.value)]
    // otherwise the script cleans the tiles the ping reached, or all of them when untested
    ensures run.outcome.Finished? ==>
      var tested := settings.testConnectivity.GetOr(true);
      var tiles := settings.tiles.value;
      && run.playbooks == (if tested then [PlaybookRun(PingPlaybook, tiles)] else [])
                          + [PlaybookRun(CleanHomePlaybook, if tested then ping.activeTiles else tiles)]
      && run.outcome.proceededPartially == (tested && ping.activeCount != |hostList|)
      && run.outcome.countChanged == (clean.activeCount != if tested then ping.activeCount else 0)
      && run.outcome.cleanedTiles == clean.activeTiles
    // a count that changes while cleaning only warns
    ensures ExitCode(run.outcome) == 0 <==>
      repoPresent && settings.tiles.GetOr("") != "" && !run.outcome.Aborted?
  {
    if !repoPresent {
      return Run(RepoMissing, []);
    }
    var tiles := settings.tiles.GetOr("");
    if |tiles| == 0 {
      return Run(NoTiles, []);
    }
    var testConnectivity := settings.testConnectivity.GetOr(true);
    var haltOnConnectivityFailure := settings.haltOnConnectivityFailure.GetOr(true);
    var playbooks: seq<PlaybookRun> := [];

    var nrActiveTiles := 0;
    var proceededPartially := false;
    if testConnectivity {
      playbooks := playbooks + [PlaybookRun(PingPlaybook, tiles)];
      tiles, nrActiveTiles := ping.activeTiles, ping.activeCount;
      if nrActiveTiles != |hostList| {
        if haltOnConnectivityFailure {
          var inactiveList := InactiveList(hostList, tiles);
          return Run(Aborted(tiles, inactiveList), playbooks);
        } else {
          proceededPartially := true;
        }
      }
    }
    var prevNrActiveTiles := nrActiveTiles;

    playbooks := playbooks + [PlaybookRun(CleanHomePlaybook, tiles)];
    tiles, nrActiveTiles := clean.activeTiles, clean.activeCount;
    run := Run(Finished(proceededPartially, nrActiveTiles != prevNrActiveTiles, tiles), playbooks);
  }
}

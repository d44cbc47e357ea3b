/** The backing-track player of the tracks tab (`TracksTab`): the slave-mode
    command lines sent to the player process, the `playing` flag, the
    display names of track files and the enabled state of the Play/Stop
    buttons. The player runs under a `Proc.Nanny` with an input pipe. */
module Tracks {
  import opened Common
  import Proc

  // ---------------------------------------------------------------------
  // Command lines

  /** Whether a command gets the "pausing " prefix: when the player is not
      playing, unless the command is "pause" itself. */
  predicate Prefixed(args: seq<string>, playing: bool)
    requires |args| >= 1
  {
    !playing && args[0] != "pause"
  }

  /** The line `_player_command` writes: the arguments joined by single
      spaces, maybe prefixed, ending in a newline. */
  function CommandLine(args: seq<string>, playing: bool): (line: string)
    requires |args| >= 1
    ensures |line| >= 1 && line[|line| - 1] == '\n'
    ensures line[..|line| - 1] == (if Prefixed(args, playing) then "pausing " else "") + Join(args, ' ')
  {
    (if Prefixed(args, playing) then "pausing " else "") + Join(args, ' ') + "\n"
  }

  /** The words a slave-mode reader sees in a line: the text before the
      newline, split at spaces. */
  function Words(line: string): (words: seq<string>)
    requires |line| >= 1
    ensures |words| >= 1
  {
    Split(line[..|line| - 1], ' ')
  }

  lemma {:induction false} JoinExcludes<T>(parts: seq<seq<T>>, sep: T, c: T)
    requires |parts| >= 1 && c != sep
    requires forall i :: 0 <= i < |parts| ==> c !in parts[i]
    ensures c !in Join(parts, sep)
    decreases |parts|
  {
    if |parts| > 1 {
      JoinExcludes(parts[1..], sep, c);
    }
  }

  /** Round trip: the line holds one newline, at its end, and its words
      are the arguments, after "pausing" when prefixed. */
  lemma CommandWords(args: seq<string>, playing: bool)
    requires |args| >= 1
    requires forall i :: 0 <= i < |args| ==> ' ' !in args[i] && '\n' !in args[i]
    ensures var line := CommandLine(args, playing);
      '\n' !in line[..|line| - 1] &&
      Words(line) == (if Prefixed(args, playing) then ["pausing"] else []) + args
  {
    var line := CommandLine(args, playing);
    var j := Join(args, ' ');
    JoinExcludes(args, ' ', '\n');
    SplitJoin(args, ' ');
    if Prefixed(args, playing) {
      assert line[..|line| - 1] == "pausing" + [' '] + j;
      assert ' ' !in "pausing" && '\n' !in "pausing";
      FirstWord("pausing", j);
      assert Words(line) == ["pausing"] + args;
      assert '\n' !in "pausing" + [' '] + j;
    } else {
      assert line[..|line| - 1] == j;
    }
  }

  /** A word free of spaces, then a space, splits off as one word. */
  lemma FirstWord(w: string, rest: string)
    requires ' ' !in w
    ensures Split(w + [' '] + rest, ' ') == [w] + Split(rest, ' ')
  {
    SplitConcat(w, ' ', rest);
    SplitWithoutSeparator(w, ' ');
  }

  /** "pause" is never prefixed, whatever the state. */
  lemma PauseIsPlain(playing: bool)
    ensures CommandLine(["pause"], playing) == "pause\n"
  {
  }

  /** The commands `_load_track` sends: "stop" in the old state, then,
      with a file selected, loading it and setting volume and speed while
      not playing. */
  function LoadCommands(wasPlaying: bool, file: Option<string>, volume: string, speed: string): (lines: seq<string>)
  {
    [CommandLine(["stop"], wasPlaying)] +
    (if file.Some? && file.value != [] then FileCommands(file.value, volume, speed) else [])
  }

  /** Loading `file` and setting volume and speed while not playing. */
  function FileCommands(file: string, volume: string, speed: string): (lines: seq<string>)
  {
    [CommandLine(["loadfile", file], false),
     CommandLine(["volume", volume, "1"], false),
     CommandLine(["speed_set", speed], false)]
  }

  /** Loading a track leaves the player paused: every command after "stop"
      carries the "pausing " prefix, and "stop" does exactly when the
      player was not playing. */
  lemma LoadKeepsPaused(wasPlaying: bool, file: Option<string>, volume: string, speed: string)
    ensures var lines := LoadCommands(wasPlaying, file, volume, speed);
      |lines| == (if file.Some? && file.value != [] then 4 else 1) &&
      (StartsWith(lines[0], "pausing ") <==> !wasPlaying) &&
      forall i :: 1 <= i < |lines| ==> StartsWith(lines[i], "pausing ")
  {
    if wasPlaying {
      assert CommandLine(["stop"], wasPlaying) == "stop\n";
    } else {
      PrefixedLine(["stop"], wasPlaying);
    }
    if file.Some? && file.value != [] {
      PrefixedLine(["loadfile", file.value], false);
      PrefixedLine(["volume", volume, "1"], false);
      PrefixedLine(["speed_set", speed], false);
    }
  }

  /** A prefixed command line starts with "pausing ". */
  lemma PrefixedLine(args: seq<string>, playing: bool)
    requires |args| >= 1 && Prefixed(args, playing)
    ensures StartsWith(CommandLine(args, playing), "pausing ")
  {
    var line := CommandLine(args, playing);
    assert line[..8] == line[..|line| - 1][..8];
  }

  // ---------------------------------------------------------------------
  // Track names

  predicate AllDots(s: string)
  {
    forall i :: 0 <= i < |s| ==> s[i] == '.'
  }

  /** The position of the last `c` in `s`, if any. */
  function LastIndex(s: string, c: char): (r: Option<nat>)
    ensures r.None? <==> c !in s
    ensures r.Some? ==> r.value < |s| && s[r.value] == c && c !in s[r.value + 1 ..]
    decreases |s|
  {
    if s == [] then None
    else if s[|s| - 1] == c then Some(|s| - 1)
    else
      var r := LastIndex(s[..|s| - 1], c);
      assert s == s[..|s| - 1] + [s[|s| - 1]];
      r
  }

  /** `os.path.splitext(name)[0]` for a name without '/': the text before
      the last '.', unless only dots precede it. */
  function StripExt(name: string): (root: string)
    ensures |root| <= |name| && name[..|root|] == root
    ensures root != name ==> name[|root|] == '.' && '.' !in name[|root| + 1 ..] && !AllDots(root)
  {
    var d := LastIndex(name, '.');
    if d.Some? && !AllDots(name[..d.value]) then name[..d.value] else name
  }

  /** The name shown for a track file: its base name without extension,
      '_' shown as ' '. */
  function DisplayName(filename: string): (name: string)
    ensures '/' !in name && '_' !in name
    ensures |name| <= |Basename(filename)|
  {
    var base := Basename(filename);
    var root := StripExt(base);
    assert root == base[..|root|];
    ReplaceChar(root, '_', ' ')
  }

  /** The display name of `<dir>/<stem>.<ext>` is the stem with spaces for
      underscores. */
  lemma DisplayNameOfTrack(dir: string, stem: string, ext: string)
    requires '/' !in stem && '/' !in ext && '.' !in ext
    requires !AllDots(stem)
    ensures DisplayName(dir + "/" + (stem + "." + ext)) == ReplaceChar(stem, '_', ' ')
  {
    var base := stem + "." + ext;
    assert '/' !in base;
    BasenameAfterSlash(dir, base);
    StripExtOf(stem, ext);
  }

  /** The extension after the last dot is what `StripExt` removes. */
  lemma StripExtOf(stem: string, ext: string)
    requires '.' !in ext && !AllDots(stem)
    ensures StripExt(stem + "." + ext) == stem
  {
    var base := stem + "." + ext;
    LastDot(stem, ext);
    assert base[..|stem|] == stem;
  }

  lemma LastDot(stem: string, ext: string)
    requires '.' !in ext
    ensures LastIndex(stem + "." + ext, '.') == Some(|stem|)
  {
    var base := stem + "." + ext;
    assert base[|stem|] == '.' && base[|stem| + 1 ..] == ext;
    LastIndexIs(base, '.', |stem|);
  }

  /** A `c` with no `c` after it is the last one. */
  lemma {:induction false} LastIndexIs(s: string, c: char, k: nat)
    requires k < |s| && s[k] == c && c !in s[k + 1 ..]
    ensures LastIndex(s, c) == Some(k)
    decreases |s|
  {
    if k < |s| - 1 {
      var init := s[..|s| - 1];
      assert s[k + 1 ..][|s| - k - 2] == s[|s| - 1];
      assert init[k + 1 ..] == s[k + 1 ..][..|s| - k - 2];
      LastIndexIs(init, c, k);
    }
  }

  /** A directory entry of the tracks directory: its name and whether it
      is a regular file. */
  datatype DirEntry = DirEntry(name: string, isFile: bool)

  /** `update_tracklist`: the regular files of `dir` the pattern `*` matches (names not
      starting with '.'), with their display names, in listing order. */
  function TrackList(dir: string, entries: seq<DirEntry>): (tracks: seq<(string, string)>)
    ensures |tracks| <= |entries|
    ensures forall t :: t in tracks ==> t.0 == DisplayName(t.1)
    ensures forall t :: t in tracks ==> exists e :: e in entries && e.isFile && !StartsWith(e.name, ".") && t.1 == dir + "/" + e.name
    ensures forall e :: e in entries && e.isFile && !StartsWith(e.name, ".") ==> (DisplayName(dir + "/" + e.name), dir + "/" + e.name) in tracks
  {
    if entries == [] then []
    else
      var rest := TrackList(dir, entries[1..]);
      assert forall e :: e in entries <==> e == entries[0] || e in entries[1..];
      var e := entries[0];
      if e.isFile && !StartsWith(e.name, ".") then [(DisplayName(dir + "/" + e.name), dir + "/" + e.name)] + rest else rest
  }

  // ---------------------------------------------------------------------
  // Player output

  /** The marker the player prints when it pauses. */
  function PauseMark(): (m: seq<byte>)
    ensures |m| == 19
  {
    Ascii("=====  PAUSE  =====")
  }

  /** `bytes.strip()` finds nothing: every byte is ASCII white space. */
  predicate Blank(data: seq<byte>)
  {
    forall i :: 0 <= i < |data| ==> data[i] in {9, 10, 11, 12, 13, 32}
  }

  // ---------------------------------------------------------------------
  // The tab

  class TracksTab {
    /** `player_nanny`: null once the player is stopped for good. */
    var player: Proc.Nanny?
    var playing: bool
    /** `current_track_name` / `current_track_filename`. */
    var currentName: Option<string>
    var currentFile: Option<string>
    /** The title label. */
    var title: string
    /** Whether Play and Stop are sensitive. */
    var buttonsEnabled: bool
    /** `_load_track` calls scheduled on the main loop. */
    var pendingReloads: nat

    ghost predicate Valid()
      reads this, player
    {
      player != null ==> player.Valid() && player.inputPipe
    }

    /** The lines the player received so far. */
    ghost function Sent(): seq<string>
      reads this, player
    {
      if player == null then [] else player.written
    }

    /** The player nanny is created but not started, and the closing
        `_update_button_states` therefore disables Play and Stop. */
    constructor ()
      ensures Valid() && player != null && fresh(player) && !player.IsStarted()
      ensures !playing && currentName.None? && currentFile.None? && !buttonsEnabled
      ensures title == "-- no track --" && pendingReloads == 0
    {
      player := new Proc.Nanny(true, [], true, true);
      playing := false;
      currentName := None;
      currentFile := None;
      title := "-- no track --";
      buttonsEnabled := false;
      pendingReloads := 0;
    }

    /** A player child is running, so written commands reach it. */
    predicate Running()
      reads this, player
    {
      player != null && player.child.Some?
    }

    /** `_player_command`: nothing without a player; otherwise the command
        line goes to the player, which drops it when no child runs. */
    method PlayerCommand(args: seq<string>)
      requires |args| >= 1 && Valid()
      modifies player
      ensures Valid() && Running() == old(Running())
      ensures player != null ==> player.IsStarted() == old(player.IsStarted())
      ensures player != null ==> player.Others() == old(player.Others())
      ensures Sent() == old(Sent()) + (if Running() then [CommandLine(args, playing)] else [])
    {
      if player == null {
        return;
      }
      var outcome := player.Write(CommandLine(args, playing));
    }

    /** The first two steps of `_load_track`: "stop", then not playing. */
    method StopTrack()
      requires Valid()
      modifies this, player
      ensures Valid() && player == old(player) && Running() == old(Running())
      ensures !playing
      ensures Sent() == old(Sent()) + (if Running() then [CommandLine(["stop"], old(playing))] else [])
      ensures player != null ==> player.IsStarted() == old(player.IsStarted())
      ensures player != null ==> player.Others() == old(player.Others())
      ensures currentName == old(currentName) && currentFile == old(currentFile) && title == old(title)
      ensures buttonsEnabled == old(buttonsEnabled) && pendingReloads == old(pendingReloads)
    {
      PlayerCommand(["stop"]);
      playing := false;
    }

    /** `_load_track`: "stop", not playing, and the selected file loaded
        with the current volume and speed. */
    method LoadTrack(volume: string, speed: string)
      requires Valid()
      modifies this, player
      ensures Valid() && player == old(player) && Running() == old(Running())
      ensures !playing
      ensures Sent() == old(Sent()) + (if Running() then LoadCommands(old(playing), currentFile, volume, speed) else [])
      ensures player != null ==> player.IsStarted() == old(player.IsStarted())
      ensures player != null ==> player.Others() == old(player.Others())
      ensures currentName == old(currentName) && currentFile == old(currentFile) && title == old(title)
      ensures buttonsEnabled == old(buttonsEnabled) && pendingReloads == old(pendingReloads)
    {
      ghost var sent0, wasPlaying := Sent(), playing;
      StopTrack();
      ghost var sent1 := Sent();
      var file := currentFile;
      if file.Some? && file.value != [] {
        SendFile(file.value, volume, speed);
        assert Sent() == sent1 + (if Running() then FileCommands(file.value, volume, speed) else []);
      } else {
        assert Sent() == sent1;
      }
      assert Running() ==> sent1 == sent0 + [CommandLine(["stop"], wasPlaying)];
      assert !Running() ==> sent1 == sent0;
    }

    /** The file-loading half of `_load_track`, sent while not playing. */
    method SendFile(file: string, volume: string, speed: string)
      requires Valid() && !playing
      modifies player
      ensures Valid() && Running() == old(Running())
      ensures player != null ==> player.IsStarted() == old(player.IsStarted())
      ensures player != null ==> player.Others() == old(player.Others())
      ensures Sent() == old(Sent()) + (if Running() then FileCommands(file, volume, speed) else [])
    {
      var load, vol, spd := ["loadfile", file], ["volume", volume, "1"], ["speed_set", speed];
      ghost var sent0 := Sent();
      PlayerCommand(load);
      ghost var sent1 := Sent();
      PlayerCommand(vol);
      ghost var sent2 := Sent();
      PlayerCommand(spd);
      if Running() {
        assert Sent() == sent2 + [CommandLine(spd, false)];
        assert sent2 == sent1 + [CommandLine(vol, false)];
        assert sent1 == sent0 + [CommandLine(load, false)];
      }
    }

    /** `_update_button_states`: enabled exactly when the player is started
        and a track is selected. Without a player it raises. */
    method UpdateButtonStates() returns (raised: bool)
      requires Valid()
      modifies this
      ensures Valid()
      ensures raised <==> player == null
      ensures !raised ==> (buttonsEnabled <==> player.IsStarted() && currentName.Some?)
      ensures raised ==> buttonsEnabled == old(buttonsEnabled)
      ensures player == old(player) && playing == old(playing) && currentName == old(currentName)
      ensures currentFile == old(currentFile) && title == old(title) && pendingReloads == old(pendingReloads)
    {
      if player == null {
        return true;
      }
      buttonsEnabled := player.IsStarted() && currentName.Some?;
      return false;
    }

    /** `_play_clicked`: toggle `playing`, then send "pause". */
    method PlayClicked()
      requires Valid()
      modifies this, player
      ensures Valid() && player == old(player) && Running() == old(Running())
      ensures playing == !old(playing)
      ensures Sent() == old(Sent()) + (if Running() then ["pause\n"] else [])
      ensures player != null ==> player.IsStarted() == old(player.IsStarted())
      ensures player != null ==> player.Others() == old(player.Others())
      ensures currentName == old(currentName) && currentFile == old(currentFile) && title == old(title)
      ensures buttonsEnabled == old(buttonsEnabled) && pendingReloads == old(pendingReloads)
    {
      playing := !playing;
      PauseIsPlain(playing);
      PlayerCommand(["pause"]);
    }

    /** `_track_selected`: remember the track, show its name, update the
        buttons and, when the player is started, load it. */
    method TrackSelected(name: string, file: string, volume: string, speed: string) returns (raised: bool)
      requires Valid()
      modifies this, player
      ensures Valid() && player == old(player)
      ensures currentName == Some(name) && currentFile == Some(file) && title == name
      ensures raised <==> player == null
      ensures raised ==> buttonsEnabled == old(buttonsEnabled)
      ensures !raised ==> (buttonsEnabled <==> player.IsStarted())
      ensures Running() == old(Running())
      ensures player != null ==> player.IsStarted() == old(player.IsStarted())
      ensures player != null ==> player.Others() == old(player.Others())
      ensures player != null && player.IsStarted() ==> !playing
      ensures Running() ==> Sent() == old(Sent()) + LoadCommands(old(playing), Some(file), volume, speed)
      ensures !Running() ==> Sent() == old(Sent())
      ensures player == null || !player.IsStarted() ==> playing == old(playing)
      ensures pendingReloads == old(pendingReloads)
    {
      currentName := Some(name);
      currentFile := Some(file);
      title := name;
      raised := UpdateButtonStates();
      if raised {
        return;
      }
      if player.IsStarted() {
        LoadTrack(volume, speed);
      }
    }

    /** `_mplayer_output`: the pause marker means not playing; an empty
        line or blank output (the end of the track) schedules a reload. */
    method PlayerOutput(data: seq<byte>)
      modifies this
      ensures Contains(data, PauseMark()) ==> !playing && pendingReloads == old(pendingReloads)
      ensures !Contains(data, PauseMark()) ==> (playing == old(playing) &&
        pendingReloads == old(pendingReloads) + (if Contains(data, [NEWLINE, NEWLINE]) || Blank(data) then 1 else 0))
      ensures player == old(player) && currentName == old(currentName) && currentFile == old(currentFile)
      ensures title == old(title) && buttonsEnabled == old(buttonsEnabled)
    {
      if Contains(data, PauseMark()) {
        playing := false;
      } else if Contains(data, [NEWLINE, NEWLINE]) || Blank(data) {
        pendingReloads := pendingReloads + 1;
      }
    }

    /** `stop_player`: stop the player for good. */
    method StopPlayer()
      requires Valid()
      modifies this, player
      ensures Valid() && player == null
      ensures old(player) != null ==> !old(player).IsStarted() && !old(player).shouldBeRunning
      ensures playing == old(playing) && currentName == old(currentName) && currentFile == old(currentFile)
      ensures title == old(title) && buttonsEnabled == old(buttonsEnabled) && pendingReloads == old(pendingReloads)
    {
      if player != null {
        player.Stop();
        player := null;
      }
    }
  }
}

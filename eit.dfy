/** The main window of the game: its flags, the player list, the four
    active-profile slots, and the methods that change them in place. Each
    method is specified by the value functions of module Game. */
module Eit {
  import opened Game

  class Main {
    var inMenu: bool
    var running: bool
    var paused: bool
    var allGameover: bool
    /** The players of the current game (kept by the data manager in the
        game). */
    var players: seq<Session>
    /** The active profile of each slot 0..3; "None" marks an empty slot. */
    var activeProfiles: map<int, string>
    /** The slot whose profile dialog was opened last; -1 before the first. */
    var selected: int

    /** Every slot has a profile entry and every player sits in a slot. */
    ghost predicate Valid()
      reads this
    {
      HasSlots(activeProfiles) && SlotsBelow(players)
    }

    /** The flags and the player list as a value. */
    function State(): GameState
      reads this
    {
      GameState(inMenu, running, paused, allGameover, players)
    }

    /** The window as the constructor and `main` leave it before the first
        frame: the four profiles come from the settings, the menu shows, the
        loop runs, and there is no game yet. */
    constructor (p0: string, p1: string, p2: string, p3: string)
      ensures Valid()
      ensures activeProfiles == map[0 := p0, 1 := p1, 2 := p2, 3 := p3]
      ensures inMenu && running && !paused && !allGameover && players == []
      ensures selected == -1
    {
      allGameover := false;
      activeProfiles := map[0 := p0, 1 := p1, 2 := p2, 3 := p3];
      paused := false;
      players := [];
      selected := -1;
      running := true;
      inMenu := true;
    }

    /** Clears slot `i`'s profile. */
    method MDel(i: int)
      requires Valid() && 0 <= i < SlotCount
      modifies this
      ensures Valid()
      ensures activeProfiles == old(activeProfiles)[i := NoProfile]
      ensures State() == old(State()) && selected == old(selected)
    {
      activeProfiles := activeProfiles[i := NoProfile];
    }

    /** Opens the profile dialog for slot `i` and remembers the slot. */
    method MOpen(i: int)
      requires 0 <= i < SlotCount
      modifies this
      ensures selected == i
      ensures State() == old(State()) && activeProfiles == old(activeProfiles)
    {
      selected := i;
    }

    /** Sets the profile of the slot whose dialog was opened to `name`. */
    method MSelectProfile(name: string)
      requires Valid() && 0 <= selected < SlotCount
      modifies this
      ensures Valid()
      ensures activeProfiles == old(activeProfiles)[selected := name]
      ensures State() == old(State()) && selected == old(selected)
    {
      activeProfiles := activeProfiles[selected := name];
    }

    /** Seats the players of a new game: one per slot whose profile is set,
        in slot order. */
    method SeatPlayers()
      requires Valid()
      modifies this
      ensures activeProfiles == old(activeProfiles) && selected == old(selected)
      ensures players == Seated(activeProfiles)
      ensures inMenu == old(inMenu) && running == old(running)
      ensures paused == old(paused) && allGameover == old(allGameover)
    {
      players := [];
      if activeProfiles[0] != NoProfile {
        players := players + [Joined(0, activeProfiles[0])];
      }
      assert players == Seat(activeProfiles, 0);
      if activeProfiles[1] != NoProfile {
        players := players + [Joined(1, activeProfiles[1])];
      }
      assert players == Seat(activeProfiles, 0) + Seat(activeProfiles, 1);
      if activeProfiles[2] != NoProfile {
        players := players + [Joined(2, activeProfiles[2])];
      }
      assert players == Seat(activeProfiles, 0) + Seat(activeProfiles, 1) + Seat(activeProfiles, 2);
      if activeProfiles[3] != NoProfile {
        players := players + [Joined(3, activeProfiles[3])];
      }
    }

    /** Starts a new game: the players are seated, each is told to pick its
        next target, and the game is neither paused nor over. */
    method StartNewGame()
      requires Valid()
      modifies this
      ensures Valid()
      ensures activeProfiles == old(activeProfiles) && selected == old(selected)
      ensures players == NewPlayers(activeProfiles) && !paused && !allGameover
      ensures inMenu == old(inMenu) && running == old(running)
    {
      SeatPlayers();
      ghost var seated := players;
      var k := 0;
      while k < |players|
        invariant 0 <= k <= |players| == |seated|
        invariant inMenu == old(inMenu) && running == old(running)
        invariant activeProfiles == old(activeProfiles) && selected == old(selected)
        invariant forall j :: 0 <= j < k ==> players[j] == Told(seated[j], NextTarget)
        invariant forall j :: k <= j < |players| ==> players[j] == seated[j]
      {
        players := players[k := Told(players[k], NextTarget)];
        k := k + 1;
      }
      assert players == NewPlayers(activeProfiles);
      allGameover := false;
      paused := false;
    }

    /** The menu's event loop: QUIT stops the main loop, ESC is ignored, and
        F2 leaves the menu and starts a new game. */
    method HandleMenuEvents(events: seq<Event>)
      requires Valid()
      modifies this
      ensures Valid()
      ensures State() == MenuEvents(old(State()), activeProfiles, events)
      ensures activeProfiles == old(activeProfiles) && selected == old(selected)
    {
      var i := 0;
      while i < |events|
        invariant 0 <= i <= |events|
        invariant Valid()
        invariant State() == MenuEvents(old(State()), activeProfiles, events[..i])
        invariant activeProfiles == old(activeProfiles) && selected == old(selected)
      {
        var e := events[i];
        ghost var before := State();
        if e == Quit {
          running := false;
        } else if e == KeyDown(Escape) {
        } else if e == KeyDown(F2) {
          inMenu := false;
          StartNewGame();
        }
        assert State() == MenuStep(before, activeProfiles, e);
        assert events[..i + 1][..i] == events[..i];
        i := i + 1;
      }
      assert events[..i] == events;
    }

    /** A play frame's handling of one event: QUIT and ESC stop the main
        loop, PAUSE toggles the pause, F2 starts a new game, and any other
        event is appended to the events pending for the players. */
    method HandlePlayEvent(e: Event, pending: seq<Event>) returns (pending': seq<Event>)
      requires Valid()
      modifies this
      ensures Valid()
      ensures State() == PlayStep(old(State()), activeProfiles, e)
      ensures pending' == pending + (if IsControl(e) then [] else [e])
      ensures activeProfiles == old(activeProfiles) && selected == old(selected)
    {
      pending' := pending;
      if e == Quit {
        running := false;
      } else if e == KeyDown(Escape) {
        running := false;
      } else if e == KeyDown(PauseKey) {
        paused := !paused;
      } else if e == KeyDown(F2) {
        StartNewGame();
      } else {
        pending' := pending + [e];
      }
    }

    /** A play frame's event loop: every event in order, collecting those
        for the players. */
    method HandlePlayEvents(events: seq<Event>) returns (playerEvents: seq<Event>)
      requires Valid()
      modifies this
      ensures Valid()
      ensures State() == PlayEvents(old(State()), activeProfiles, events)
      ensures playerEvents == PlayerEvents(events)
      ensures activeProfiles == old(activeProfiles) && selected == old(selected)
    {
      playerEvents := [];
      var i := 0;
      while i < |events|
        invariant 0 <= i <= |events|
        invariant Valid()
        invariant State() == PlayEvents(old(State()), activeProfiles, events[..i])
        invariant playerEvents == PlayerEvents(events[..i])
        invariant activeProfiles == old(activeProfiles) && selected == old(selected)
      {
        playerEvents := HandlePlayEvent(events[i], playerEvents);
        assert events[..i + 1][..i] == events[..i];
        i := i + 1;
      }
      assert events[..i] == events;
    }

    /** Updates and checks every player in order; a failed check pauses the
        game, but the remaining players are still updated. */
    method UpdatePlayers(playerEvents: seq<Event>, frametime: int, reports: seq<Report>)
      requires Valid() && |reports| == SlotCount && !paused
      modifies this
      ensures Valid()
      ensures State() == UpdatePhase(old(State()), playerEvents, frametime, reports)
      ensures activeProfiles == old(activeProfiles) && selected == old(selected)
    {
      ghost var before := players;
      var k := 0;
      while k < |players|
        invariant 0 <= k <= |players| == |before|
        invariant forall j :: 0 <= j < k ==> players[j] == Played(before[j], playerEvents, frametime, reports[before[j].slot])
        invariant forall j :: k <= j < |players| ==> players[j] == before[j]
        invariant paused <==> exists j :: 0 <= j < k && !reports[before[j].slot].checkOk
        invariant inMenu == old(inMenu) && running == old(running) && allGameover == old(allGameover)
        invariant activeProfiles == old(activeProfiles) && selected == old(selected)
      {
        var report := reports[players[k].slot];
        players := players[k := Played(players[k], playerEvents, frametime, report)];
        if !report.checkOk {
          paused := true;
        }
        k := k + 1;
      }
      assert players == UpdateAll(before, playerEvents, frametime, reports);
    }

    /** Draws every player. */
    method DrawPlayers()
      requires Valid()
      modifies this
      ensures Valid()
      ensures State() == old(State()).(players := Notify(old(players), Draw))
      ensures activeProfiles == old(activeProfiles) && selected == old(selected)
    {
      ghost var before := players;
      var k := 0;
      while k < |players|
        invariant 0 <= k <= |players| == |before|
        invariant forall j :: 0 <= j < k ==> players[j] == Told(before[j], Draw)
        invariant forall j :: k <= j < |players| ==> players[j] == before[j]
        invariant State() == old(State()).(players := players)
        invariant activeProfiles == old(activeProfiles) && selected == old(selected)
      {
        players := players[k := Told(players[k], Draw)];
        k := k + 1;
      }
      assert players == Notify(before, Draw);
    }

    /** Folds the players' game-over flags into `allGameover`, starting
        from true. */
    method CheckAllGameover()
      modifies this
      ensures allGameover == AllOver(players)
      ensures players == old(players) && paused == old(paused)
      ensures inMenu == old(inMenu) && running == old(running)
      ensures activeProfiles == old(activeProfiles) && selected == old(selected)
    {
      allGameover := true;
      var k := 0;
      while k < |players|
        invariant 0 <= k <= |players|
        invariant players == old(players) && paused == old(paused)
        invariant inMenu == old(inMenu) && running == old(running)
        invariant activeProfiles == old(activeProfiles) && selected == old(selected)
        invariant allGameover == AllOver(players[..k])
      {
        allGameover := allGameover && players[k].gameover;
        assert players[..k + 1][..k] == players[..k];
        k := k + 1;
      }
      assert players[..k] == players;
    }

    /** One iteration of the main loop; returns the screen drawn over the
        fields. */
    method Loop(events: seq<Event>, frametime: int, reports: seq<Report>) returns (overlay: Overlay)
      requires Valid() && |reports| == SlotCount
      modifies this
      ensures Valid()
      ensures (State(), overlay) == Frame(old(State()), activeProfiles, events, frametime, reports)
      ensures activeProfiles == old(activeProfiles) && selected == old(selected)
    {
      if inMenu {
        HandleMenuEvents(events);
        return NoOverlay;
      }
      var playerEvents := HandlePlayEvents(events);
      ghost var handled := State();
      if !paused {
        UpdatePlayers(playerEvents, frametime, reports);
      }
      ghost var updated := State();
      assert updated == UpdatePhase(handled, playerEvents, frametime, reports);
      DrawPlayers();
      CheckAllGameover();
      if allGameover {
        overlay := GameOverScreen;
      } else if paused {
        overlay := PauseScreen;
      } else {
        overlay := NoOverlay;
      }
    }
  }
}

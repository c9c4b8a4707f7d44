/** The game-loop state machine of the Eit main window, on values.

    A frame of the main loop either runs the menu (only QUIT and F2 matter
    there) or a play frame: control keys are handled, every other event is
    handed to the players, the players are updated and checked unless the game
    is paused, every player is drawn, and the game-over flag is recomputed.

    The players are PlayerField objects whose code is not part of this model.
    Each is a `Session`: the slot and profile it was created for, its screen
    origin, its `gameover` flag and the log of calls the loop made on it. What
    `check()` returns and what `gameover` reads after an update are per-slot
    inputs of the frame (a `Report` per slot). */
module Game {

  datatype Key = Escape | PauseKey | F2 | OtherKey(code: int)

  datatype Event = Quit | KeyDown(key: Key) | OtherEvent(code: int)

  /** The events the loop handles itself; all others go to the players. */
  predicate IsControl(e: Event) {
    e == Quit || e == KeyDown(Escape) || e == KeyDown(PauseKey) || e == KeyDown(F2)
  }

  /** Number of player slots (and of active profiles). */
  const SlotCount: nat := 4

  /** The profile name that marks an empty slot. */
  const NoProfile: string := "None"

  /** Width of one player field on screen, and the margin before it. */
  const FieldWidth: int := 248
  const FieldMargin: int := 16

  /** A call the loop makes on a player. */
  datatype Call = NextTarget | Update(events: seq<Event>, frametime: int) | Check | Draw

  /** One player: a PlayerField as far as the loop can see it. */
  datatype Session = Session(slot: nat, profile: string, left: int, top: int, gameover: bool, calls: seq<Call>)

  /** What one slot's player answers in one frame: the result of `check()`
      and its `gameover` flag after the update. */
  datatype Report = Report(checkOk: bool, gameover: bool)

  /** The screen drawn over the fields at the end of a play frame. */
  datatype Overlay = NoOverlay | GameOverScreen | PauseScreen

  /** The flags of the main window and the player list. */
  datatype GameState = GameState(inMenu: bool, running: bool, paused: bool, allGameover: bool, players: seq<Session>)

  /** The active-profile table has an entry for every slot. */
  predicate HasSlots(profiles: map<int, string>) {
    forall i :: 0 <= i < SlotCount ==> i in profiles
  }

  /** Every player sits in one of the slots. */
  predicate SlotsBelow(ps: seq<Session>) {
    forall k :: 0 <= k < |ps| ==> ps[k].slot < SlotCount
  }

  /** A new PlayerField for `slot`: its field starts one field width further
      right per slot, and nothing has been called on it yet. It is assumed not
      to be game over. */
  function Joined(slot: nat, profile: string): Session {
    Session(slot, profile, FieldWidth * slot + FieldMargin, FieldMargin, false, [])
  }

  /** The player `start_new_game` creates for slot `i`, if its profile is set. */
  function Seat(profiles: map<int, string>, i: nat): seq<Session>
    requires i < SlotCount && HasSlots(profiles)
  {
    if profiles[i] != NoProfile then [Joined(i, profiles[i])] else []
  }

  /** The player list `start_new_game` builds, before `next_target`. */
  function Seated(profiles: map<int, string>): seq<Session>
    requires HasSlots(profiles)
  {
    Seat(profiles, 0) + Seat(profiles, 1) + Seat(profiles, 2) + Seat(profiles, 3)
  }

  /** A player after one more call `c` on it. */
  function Told(p: Session, c: Call): Session {
    p.(calls := p.calls + [c])
  }

  /** Every player of `ps` after one call `c` on each. */
  function Notify(ps: seq<Session>, c: Call): seq<Session> {
    seq(|ps|, k requires 0 <= k < |ps| => Told(ps[k], c))
  }

  /** The player list of a new game: one player per set slot, each told to
      pick its next target once. */
  function NewPlayers(profiles: map<int, string>): (r: seq<Session>)
    requires HasSlots(profiles)
    ensures SlotsBelow(r)
  {
    Notify(Seated(profiles), NextTarget)
  }

  /** `start_new_game` on the flags: new players, not paused, not over. */
  function Restarted(st: GameState, profiles: map<int, string>): GameState
    requires HasSlots(profiles)
  {
    st.(players := NewPlayers(profiles), paused := false, allGameover := false)
  }

  /** The menu's handling of one event. */
  function MenuStep(st: GameState, profiles: map<int, string>, e: Event): GameState
    requires HasSlots(profiles)
  {
    if e == Quit then st.(running := false)
    else if e == KeyDown(Escape) then st
    else if e == KeyDown(F2) then Restarted(st.(inMenu := false), profiles)
    else st
  }

  /** The menu's handling of a frame's events, in order. */
  function MenuEvents(st: GameState, profiles: map<int, string>, es: seq<Event>): GameState
    requires HasSlots(profiles)
    decreases |es|
  {
    if es == [] then st
    else MenuStep(MenuEvents(st, profiles, es[..|es| - 1]), profiles, es[|es| - 1])
  }

  /** A play frame's handling of one control event; other events leave the
      flags alone. */
  function PlayStep(st: GameState, profiles: map<int, string>, e: Event): GameState
    requires HasSlots(profiles)
  {
    if e == Quit || e == KeyDown(Escape) then st.(running := false)
    else if e == KeyDown(PauseKey) then st.(paused := !st.paused)
    else if e == KeyDown(F2) then Restarted(st, profiles)
    else st
  }

  /** A play frame's handling of its events, in order. */
  function PlayEvents(st: GameState, profiles: map<int, string>, es: seq<Event>): (r: GameState)
    requires HasSlots(profiles)
    ensures r.inMenu == st.inMenu
    ensures SlotsBelow(st.players) ==> SlotsBelow(r.players)
    decreases |es|
  {
    if es == [] then st
    else PlayStep(PlayEvents(st, profiles, es[..|es| - 1]), profiles, es[|es| - 1])
  }

  /** The events handed to the players: the non-control events, in order. */
  function PlayerEvents(es: seq<Event>): (r: seq<Event>)
    ensures |r| <= |es|
    ensures forall e :: e in r <==> e in es && !IsControl(e)
    decreases |es|
  {
    if es == [] then []
    else
      var last := es[|es| - 1];
      PlayerEvents(es[..|es| - 1]) + (if IsControl(last) then [] else [last])
  }

  /** One player after `update(events, frametime)` and `check()`. */
  function Played(p: Session, events: seq<Event>, frametime: int, rep: Report): Session {
    p.(calls := p.calls + [Update(events, frametime), Check], gameover := rep.gameover)
  }

  /** Every player updated and checked. */
  function UpdateAll(ps: seq<Session>, events: seq<Event>, frametime: int, reports: seq<Report>): seq<Session>
    requires |reports| == SlotCount && SlotsBelow(ps)
  {
    seq(|ps|, k requires 0 <= k < |ps| => Played(ps[k], events, frametime, reports[ps[k].slot]))
  }

  /** Some player's `check()` fails. */
  predicate CheckFails(ps: seq<Session>, reports: seq<Report>)
    requires |reports| == SlotCount && SlotsBelow(ps)
  {
    exists k :: 0 <= k < |ps| && !reports[ps[k].slot].checkOk
  }

  /** The update phase of a play frame: nothing when paused; otherwise
      every player is updated and checked, and a failed check pauses. */
  function UpdatePhase(st: GameState, events: seq<Event>, frametime: int, reports: seq<Report>): GameState
    requires |reports| == SlotCount && SlotsBelow(st.players)
  {
    if st.paused then st
    else st.(players := UpdateAll(st.players, events, frametime, reports), paused := CheckFails(st.players, reports))
  }

  /** The game-over flag folded over the players, from the first. */
  function AllOver(ps: seq<Session>): (r: bool)
    ensures r <==> forall k :: 0 <= k < |ps| ==> ps[k].gameover
    decreases |ps|
  {
    if ps == [] then true
    else AllOver(ps[..|ps| - 1]) && ps[|ps| - 1].gameover
  }

  /** The overlay of a play frame. */
  function ChooseOverlay(allGameover: bool, paused: bool): (o: Overlay)
    ensures o == GameOverScreen <==> allGameover
    ensures o == PauseScreen <==> paused && !allGameover
    ensures o == NoOverlay <==> !allGameover && !paused
  {
    if allGameover then GameOverScreen
    else if paused then PauseScreen
    else NoOverlay
  }

  /** One iteration of the main loop. */
  function Frame(st: GameState, profiles: map<int, string>, events: seq<Event>, frametime: int, reports: seq<Report>): (GameState, Overlay)
    requires HasSlots(profiles) && |reports| == SlotCount && SlotsBelow(st.players)
  {
    if st.inMenu then (MenuEvents(st, profiles, events), NoOverlay)
    else
      var handled := PlayEvents(st, profiles, events);
      var updated := UpdatePhase(handled, PlayerEvents(events), frametime, reports);
      var drawn := updated.(players := Notify(updated.players, Draw));
      var all := AllOver(drawn.players);
      (drawn.(allGameover := all), ChooseOverlay(all, drawn.paused))
  }

  /** Each player of a new game sits in a set slot, with that slot's profile
      and screen origin, is not game over and has been told only to pick its
      next target. */
  lemma NewPlayersSeated(profiles: map<int, string>)
    requires HasSlots(profiles)
    ensures forall k :: 0 <= k < |NewPlayers(profiles)| ==>
      var p := NewPlayers(profiles)[k];
      p.slot < SlotCount && p.profile == profiles[p.slot] && p.profile != NoProfile &&
      p == Joined(p.slot, p.profile).(calls := [NextTarget])
  {
    var s0, s1, s2, s3 := Seat(profiles, 0), Seat(profiles, 1), Seat(profiles, 2), Seat(profiles, 3);
    assert Seated(profiles) == s0 + s1 + s2 + s3;
  }

  /** The players of a new game come in ascending slot order, so no slot has
      two players. */
  lemma NewPlayersOrdered(profiles: map<int, string>)
    requires HasSlots(profiles)
    ensures forall j, k :: 0 <= j < k < |NewPlayers(profiles)| ==>
      NewPlayers(profiles)[j].slot < NewPlayers(profiles)[k].slot
  {
    var s0, s1, s2, s3 := Seat(profiles, 0), Seat(profiles, 1), Seat(profiles, 2), Seat(profiles, 3);
    assert Seated(profiles) == s0 + s1 + s2 + s3;
  }

  /** A slot has a player in a new game exactly when its profile is set. */
  lemma NewPlayersComplete(profiles: map<int, string>)
    requires HasSlots(profiles)
    ensures forall i :: 0 <= i < SlotCount ==>
      (profiles[i] != NoProfile <==> exists k :: 0 <= k < |NewPlayers(profiles)| && NewPlayers(profiles)[k].slot == i)
  {
    var s0, s1, s2, s3 := Seat(profiles, 0), Seat(profiles, 1), Seat(profiles, 2), Seat(profiles, 3);
    var r := NewPlayers(profiles);
    assert Seated(profiles) == s0 + s1 + s2 + s3;
    NewPlayersSeated(profiles);
    forall i | 0 <= i < SlotCount && profiles[i] != NoProfile
      ensures exists k :: 0 <= k < |r| && r[k].slot == i
    {
      var k := if i == 0 then 0 else if i == 1 then |s0|
        else if i == 2 then |s0| + |s1| else |s0| + |s1| + |s2|;
      assert r[k].slot == i;
    }
  }

  /** Handing events to the players keeps their order: two consecutive
      stretches of events give the players' events of the first followed by
      those of the second. */
  lemma {:induction false} PlayerEventsAppend(a: seq<Event>, b: seq<Event>)
    ensures PlayerEvents(a + b) == PlayerEvents(a) + PlayerEvents(b)
    decreases |b|
  {
    if b == [] {
      assert a + b == a;
    } else {
      var front := b[..|b| - 1];
      assert (a + b)[..|a + b| - 1] == a + front;
      assert (a + b)[|a + b| - 1] == b[|b| - 1];
      PlayerEventsAppend(a, front);
    }
  }

  /** Events none of which is a control event all go to the players, as they
      are. */
  lemma {:induction false} PlayerEventsPlain(es: seq<Event>)
    requires forall k :: 0 <= k < |es| ==> !IsControl(es[k])
    ensures PlayerEvents(es) == es
    decreases |es|
  {
    if es != [] {
      PlayerEventsPlain(es[..|es| - 1]);
      assert es == es[..|es| - 1] + [es[|es| - 1]];
    }
  }

  /** Handling two consecutive stretches of events is handling the first,
      then the second. */
  lemma {:induction false} PlayEventsAppend(st: GameState, profiles: map<int, string>, a: seq<Event>, b: seq<Event>)
    requires HasSlots(profiles)
    ensures PlayEvents(st, profiles, a + b) == PlayEvents(PlayEvents(st, profiles, a), profiles, b)
    decreases |b|
  {
    if b == [] {
      assert a + b == a;
    } else {
      var front := b[..|b| - 1];
      assert (a + b)[..|a + b| - 1] == a + front;
      assert (a + b)[|a + b| - 1] == b[|b| - 1];
      PlayEventsAppend(st, profiles, a, front);
    }
  }

  /** In play, the loop keeps running unless a QUIT or an ESC key comes;
      nothing sets it running again. */
  lemma {:induction false} PlayRunning(st: GameState, profiles: map<int, string>, es: seq<Event>)
    requires HasSlots(profiles)
    ensures PlayEvents(st, profiles, es).running <==> st.running && Quit !in es && KeyDown(Escape) !in es
    decreases |es|
  {
    if es != [] {
      PlayRunning(st, profiles, es[..|es| - 1]);
      assert es == es[..|es| - 1] + [es[|es| - 1]];
    }
  }

  /** The number of PAUSE key presses in `es` is odd. */
  predicate OddPauses(es: seq<Event>) {
    multiset(es)[KeyDown(PauseKey)] % 2 == 1
  }

  /** Without F2, a play frame's events leave the players and the game-over
      flag alone, and each PAUSE key flips `paused`. */
  lemma {:induction false} PlayPauseParity(st: GameState, profiles: map<int, string>, es: seq<Event>)
    requires HasSlots(profiles) && KeyDown(F2) !in es
    ensures PlayEvents(st, profiles, es).players == st.players
    ensures PlayEvents(st, profiles, es).allGameover == st.allGameover
    ensures PlayEvents(st, profiles, es).paused == (st.paused != OddPauses(es))
    decreases |es|
  {
    if es != [] {
      var front := es[..|es| - 1];
      assert es == front + [es[|es| - 1]];
      assert multiset(es) == multiset(front) + multiset{es[|es| - 1]};
      PlayPauseParity(st, profiles, front);
    }
  }

  /** After the last F2 of a play frame the game is a new one: the players
      are those of a new game, not game over, and `paused` is set exactly when
      an odd number of PAUSE keys followed. */
  lemma PlayRestart(st: GameState, profiles: map<int, string>, a: seq<Event>, b: seq<Event>)
    requires HasSlots(profiles) && KeyDown(F2) !in b
    ensures PlayEvents(st, profiles, a + [KeyDown(F2)] + b).players == NewPlayers(profiles)
    ensures !PlayEvents(st, profiles, a + [KeyDown(F2)] + b).allGameover
    ensures PlayEvents(st, profiles, a + [KeyDown(F2)] + b).paused == OddPauses(b)
  {
    var restart := a + [KeyDown(F2)];
    PlayEventsAppend(st, profiles, restart, b);
    assert restart[..|restart| - 1] == a;
    var mid := PlayEvents(st, profiles, restart);
    assert mid == Restarted(PlayEvents(st, profiles, a), profiles);
    PlayPauseParity(mid, profiles, b);
  }

  /** In the menu, QUIT stops the loop, ESC does nothing, and F2 leaves the
      menu. */
  lemma {:induction false} MenuExits(st: GameState, profiles: map<int, string>, es: seq<Event>)
    requires HasSlots(profiles)
    ensures MenuEvents(st, profiles, es).running <==> st.running && Quit !in es
    ensures MenuEvents(st, profiles, es).inMenu <==> st.inMenu && KeyDown(F2) !in es
    decreases |es|
  {
    if es != [] {
      MenuExits(st, profiles, es[..|es| - 1]);
      assert es == es[..|es| - 1] + [es[|es| - 1]];
    }
  }

  /** In the menu, an F2 starts a new game, and only F2 touches the players
      and the flags of a game. */
  lemma {:induction false} MenuStarts(st: GameState, profiles: map<int, string>, es: seq<Event>)
    requires HasSlots(profiles)
    ensures KeyDown(F2) in es ==>
      MenuEvents(st, profiles, es).players == NewPlayers(profiles) &&
      !MenuEvents(st, profiles, es).paused && !MenuEvents(st, profiles, es).allGameover
    ensures KeyDown(F2) !in es ==>
      MenuEvents(st, profiles, es).players == st.players &&
      MenuEvents(st, profiles, es).paused == st.paused &&
      MenuEvents(st, profiles, es).allGameover == st.allGameover
    decreases |es|
  {
    if es != [] {
      MenuStarts(st, profiles, es[..|es| - 1]);
      assert es == es[..|es| - 1] + [es[|es| - 1]];
    }
  }

  /** A play frame: the loop stops only on QUIT or ESC; every player keeps
      its slot, profile and screen origin and is drawn once at the end;
      unless the events left the game paused, every player is first updated
      with the players' events and checked, takes the game-over flag it
      reports, and a failed check pauses the game, which no check undoes;
      the game is over exactly when every player is; and the game-over
      screen wins over the pause screen. */
  lemma PlayFrame(st: GameState, profiles: map<int, string>, events: seq<Event>, frametime: int, reports: seq<Report>)
    requires HasSlots(profiles) && |reports| == SlotCount && SlotsBelow(st.players) && !st.inMenu
    ensures
      var handled := PlayEvents(st, profiles, events);
      var r := Frame(st, profiles, events, frametime, reports).0;
      var o := Frame(st, profiles, events, frametime, reports).1;
      !r.inMenu &&
      (r.running <==> st.running && Quit !in events && KeyDown(Escape) !in events) &&
      |r.players| == |handled.players| &&
      (forall k :: 0 <= k < |r.players| ==>
        r.players[k] == handled.players[k].(
          calls := handled.players[k].calls +
            (if handled.paused then [] else [Update(PlayerEvents(events), frametime), Check]) + [Draw],
          gameover :=
            if handled.paused then handled.players[k].gameover else reports[handled.players[k].slot].gameover)) &&
      (r.paused <==> handled.paused || CheckFails(handled.players, reports)) &&
      (r.allGameover <==> forall k :: 0 <= k < |r.players| ==> r.players[k].gameover) &&
      (o == GameOverScreen <==> r.allGameover) &&
      (o == PauseScreen <==> r.paused && !r.allGameover)
  {
    PlayRunning(st, profiles, events);
  }

  /** Who plays a new game: exactly one player per set slot, the one made
      for that slot and profile and told to pick its next target. */
  lemma NewPlayersMember(profiles: map<int, string>, p: Session)
    requires HasSlots(profiles)
    ensures p in NewPlayers(profiles) <==>
      p.slot < SlotCount && profiles[p.slot] != NoProfile &&
      p == Joined(p.slot, profiles[p.slot]).(calls := [NextTarget])
  {
    NewPlayersSeated(profiles);
    NewPlayersComplete(profiles);
  }

  /** Clearing a slot's profile removes that slot's player from the next new
      game and keeps every other player. */
  lemma ClearedSlot(profiles: map<int, string>, i: int, p: Session)
    requires HasSlots(profiles) && 0 <= i < SlotCount
    ensures p in NewPlayers(profiles[i := NoProfile]) <==> p in NewPlayers(profiles) && p.slot != i
  {
    NewPlayersMember(profiles, p);
    NewPlayersMember(profiles[i := NoProfile], p);
  }

  /** Choosing a profile for a slot seats a player with that profile there in
      the next new game, unless the name chosen is "None"; other slots keep
      their players. */
  lemma SelectedSlot(profiles: map<int, string>, i: int, name: string, p: Session)
    requires HasSlots(profiles) && 0 <= i < SlotCount
    ensures name != NoProfile ==>
      Joined(i, name).(calls := [NextTarget]) in NewPlayers(profiles[i := name])
    ensures p.slot != i ==> (p in NewPlayers(profiles[i := name]) <==> p in NewPlayers(profiles))
  {
    NewPlayersMember(profiles, p);
    NewPlayersMember(profiles[i := name], p);
    NewPlayersMember(profiles[i := name], Joined(i, name).(calls := [NextTarget]));
  }
}

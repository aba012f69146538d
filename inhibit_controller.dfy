/**
 * `InhibitController` (`src/audio/controller/inhibit_controller.rs`): keeps
 * the session from suspending while something plays. It holds the cookie of
 * the inhibitor it installed, 0 when it holds none. The calls it makes on the
 * application are collected in `calls`.
 */
module InhibitController {

  /**
   * The playback states the controller is told about. The file names a
   * `Loading` state; `Failure` comes from the other player generation. Every
   * state other than `Playing` and `Loading` is handled alike.
   */
  datatype PlaybackState = Playing | Stopped | Loading | Failure(message: string)

  /** `app.inhibit(SUSPEND)`, returning the cookie (0 when refused), and `app.uninhibit(cookie)`. */
  datatype Call = Inhibit(granted: nat) | Uninhibit(cookie: nat)

  const U32Limit: nat := 0x1_0000_0000

  /** The cookies of the inhibitors `calls` leaves installed: granted and not yet released. */
  ghost function Outstanding(calls: seq<Call>): multiset<nat>
  {
    if calls == [] then multiset{}
    else
      var before := Outstanding(calls[..|calls| - 1]);
      match calls[|calls| - 1]
      case Inhibit(c) => if c == 0 then before else before + multiset{c}
      case Uninhibit(c) => before - multiset{c}
  }

  /** Whether a state keeps the session awake. */
  predicate Active(state: PlaybackState) {
    state == Playing || state == Loading
  }

  class InhibitController {
    var cookie: nat
    var calls: seq<Call>

    /** At most one inhibitor is installed, and `cookie` names it. */
    ghost predicate Valid()
      reads this
    {
      && cookie < U32Limit
      && Outstanding(calls) == (if cookie == 0 then multiset{} else multiset{cookie})
    }

    /** `InhibitController::new`: no cookie held. */
    constructor ()
      ensures Valid() && cookie == 0 && calls == []
    {
      cookie, calls := 0, [];
    }

    /**
     * `set_playback_state`. `granted` is what `app.inhibit` returns if the
     * controller asks for an inhibitor.
     */
    method SetPlaybackState(state: PlaybackState, granted: nat)
      requires Valid() && granted < U32Limit
      modifies this
      ensures Valid()
      ensures Active(state) && old(cookie) == 0 ==> cookie == granted && calls == old(calls) + [Inhibit(granted)]
      ensures Active(state) && old(cookie) != 0 ==> cookie == old(cookie) && calls == old(calls)
      ensures !Active(state) && old(cookie) != 0 ==> cookie == 0 && calls == old(calls) + [Uninhibit(old(cookie))]
      ensures !Active(state) && old(cookie) == 0 ==> cookie == 0 && calls == old(calls)
    {
      if state == Playing || state == Loading {
        if cookie == 0 {
          calls := calls + [Inhibit(granted)];
          assert calls[..|calls| - 1] == old(calls);
          cookie := granted;
        }
      } else {
        if cookie != 0 {
          calls := calls + [Uninhibit(cookie)];
          assert calls[..|calls| - 1] == old(calls);
          cookie := 0;
        }
      }
    }

    /** `set_station`: nothing to do. */
    method SetStation()
      ensures cookie == old(cookie) && calls == old(calls)
    {
    }

    /** `set_volume`: nothing to do. */
    method SetVolume(volume: real)
      ensures cookie == old(cookie) && calls == old(calls)
    {
    }

    /** `set_song_title`: nothing to do. */
    method SetSongTitle(title: string)
      ensures cookie == old(cookie) && calls == old(calls)
    {
    }
  }
}

/** Focus outlines only for keyboard users: the two-listener Tab / mousedown toggle. */
module FocusMode {

  /** Which global listener is attached: the keydown one or the mousedown one. */
  datatype Listening = WatchingForTab | WatchingForMouseDown

  datatype Event = KeyDown(key: string) | MouseDown

  const TabKey := "Tab"

  /** The listener that is attached and whether the body carries `user-is-tabbing`. */
  datatype Modality = Modality(listening: Listening, tabbing: bool)

  /** At load only the keydown listener is attached and the marker is absent. */
  const Initial := Modality(WatchingForTab, false)

  /** The marker is present exactly while the mousedown listener is the attached one. */
  predicate Consistent(m: Modality)
  {
    m.tabbing <==> m.listening == WatchingForMouseDown
  }

  /**
   * The effect of one event. An event whose listener is not attached does
   * nothing; a keydown other than Tab does nothing either.
   */
  function Step(m: Modality, e: Event): (r: Modality)
    ensures Consistent(m) ==> Consistent(r)
    ensures r == m || Consistent(r)
    ensures m.listening == WatchingForTab && e.MouseDown? ==> r == m
    ensures m.listening == WatchingForMouseDown && e.KeyDown? ==> r == m
  {
    match m.listening
    case WatchingForTab =>
      if e.KeyDown? && e.key == TabKey then Modality(WatchingForMouseDown, true) else m
    case WatchingForMouseDown =>
      if e.MouseDown? then Modality(WatchingForTab, false) else m
  }

  /**
   * The effect of a sequence of events, first to last. Even from a state that
   * is not consistent, once any event has had an effect the marker is tied to
   * the listener.
   */
  function Run(m: Modality, events: seq<Event>): (r: Modality)
    ensures r == m || Consistent(r)
    decreases |events|
  {
    if events == [] then m else Run(Step(m, events[0]), events[1..])
  }

  /** A pressed Tab while watching for Tab turns the marker on and swaps listeners. */
  lemma TabSetsMarker(m: Modality)
    requires m.listening == WatchingForTab
    ensures Step(m, KeyDown(TabKey)) == Modality(WatchingForMouseDown, true)
  {
  }

  /** Any other key while watching for Tab changes nothing. */
  lemma OtherKeyIgnored(m: Modality, key: string)
    requires m.listening == WatchingForTab && key != TabKey
    ensures Step(m, KeyDown(key)) == m
  {
  }

  /** A mousedown while watching for mousedown turns the marker off and swaps back. */
  lemma MouseDownClearsMarker(m: Modality)
    requires m.listening == WatchingForMouseDown
    ensures Step(m, MouseDown) == Initial
  {
  }

  /** From any consistent state, every sequence of events keeps the marker tied to the listener. */
  lemma {:induction false} RunKeepsConsistent(m: Modality, events: seq<Event>)
    requires Consistent(m)
    ensures Consistent(Run(m, events))
    decreases |events|
  {
    if events != [] {
      RunKeepsConsistent(Step(m, events[0]), events[1..]);
    }
  }

  /** Reachable states are consistent. */
  lemma ReachableConsistent(events: seq<Event>)
    ensures Consistent(Run(Initial, events))
  {
    RunKeepsConsistent(Initial, events);
  }

  /**
   * Once a Tab is seen, further keydowns (Tab or not) have no effect until a
   * mousedown: the marker is added once and stays.
   */
  lemma {:induction false} KeysAfterTabIgnored(keys: seq<Event>)
    requires forall i :: 0 <= i < |keys| ==> keys[i].KeyDown?
    ensures Run(Step(Initial, KeyDown(TabKey)), keys) == Modality(WatchingForMouseDown, true)
    decreases |keys|
  {
    if keys != [] {
      KeysAfterTabIgnored(keys[1..]);
    }
  }

  /** Mousedowns before any Tab leave the initial state untouched. */
  lemma {:induction false} MouseDownsBeforeTabIgnored(clicks: seq<Event>)
    requires forall i :: 0 <= i < |clicks| ==> clicks[i].MouseDown?
    ensures Run(Initial, clicks) == Initial
    decreases |clicks|
  {
    if clicks != [] {
      MouseDownsBeforeTabIgnored(clicks[1..]);
    }
  }

  /** The page's listeners and the body's marker class. */
  class FocusDetector {
    var listening: Listening
    var tabbing: bool

    function Current(): Modality
      reads this
    {
      Modality(listening, tabbing)
    }

    ghost predicate Valid()
      reads this
    {
      Consistent(Current())
    }

    /** Script load: attach the keydown listener. */
    constructor ()
      ensures Current() == Initial && Valid()
    {
      listening := WatchingForTab;
      tabbing := false;
    }

    /** A keydown reaches `handleFirstTab` only while its listener is attached. */
    method OnKeyDown(key: string)
      requires Valid()
      modifies this
      ensures Valid()
      ensures Current() == Step(old(Current()), KeyDown(key))
    {
      if listening == WatchingForTab && key == TabKey {
        tabbing := true;
        listening := WatchingForMouseDown;
      }
    }

    /** A mousedown reaches `handleMouseDownOnce` only while its listener is attached. */
    method OnMouseDown()
      requires Valid()
      modifies this
      ensures Valid()
      ensures Current() == Step(old(Current()), MouseDown)
    {
      if listening == WatchingForMouseDown {
        tabbing := false;
        listening := WatchingForTab;
      }
    }
  }
}

/** The window's persistent status tags and transient event tags, kept as sets,
    together with their bit encodings (`WSI_WINDOW_STATUS_FLAGS`,
    `WSI_WINDOW_EVENT_FLAGS`). The lemmas show that set union and difference
    are exactly the bitwise `|=` and `&= ~` the handlers perform on the
    flag words (only their low byte is ever used), so the set model loses nothing. */
module Flags {

  datatype Status = Created | Active | Visible | Fullscreen

  datatype Event =
    | Created
    | Destroyed
    | Shown
    | Hidden
    | Activated
    | Deactivated
    | SizeChanged
    | PositionChanged

  const AllStatus: set<Status> := {Status.Created, Active, Visible, Fullscreen}

  const AllEvents: set<Event> :=
    {Event.Created, Destroyed, Shown, Hidden, Activated, Deactivated, SizeChanged, PositionChanged}

  /** The enumerator value of each status tag (`1UL << n`). */
  function StatusBit(f: Status): bv8 {
    match f
    case Created => 0x1
    case Active => 0x2
    case Visible => 0x4
    case Fullscreen => 0x8
  }

  /** The enumerator value of each event tag (`1UL << n`). */
  function EventBit(f: Event): bv8 {
    match f
    case Created => 0x01
    case Destroyed => 0x02
    case Shown => 0x04
    case Hidden => 0x08
    case Activated => 0x10
    case Deactivated => 0x20
    case SizeChanged => 0x40
    case PositionChanged => 0x80
  }

  /** The `StatusFlags` word holding exactly the tags of `s`. */
  function StatusMask(s: set<Status>): (m: bv8)
    ensures forall f :: (m & StatusBit(f) != 0) <==> f in s
    ensures m & 0xF0 == 0
  {
    (if Status.Created in s then 0x1 else 0)
    | (if Active in s then 0x2 else 0)
    | (if Visible in s then 0x4 else 0)
    | (if Fullscreen in s then 0x8 else 0)
  }

  /** The tags a `StatusFlags` word has set. */
  function StatusSet(m: bv8): (s: set<Status>)
    ensures forall f :: f in s <==> m & StatusBit(f) != 0
  {
    set f | f in AllStatus && m & StatusBit(f) != 0
  }

  /** The `EventFlags` word holding exactly the tags of `s`. */
  function EventMask(s: set<Event>): (m: bv8)
    ensures forall f :: (m & EventBit(f) != 0) <==> f in s
  {
    (if Event.Created in s then 0x01 else 0)
    | (if Destroyed in s then 0x02 else 0)
    | (if Shown in s then 0x04 else 0)
    | (if Hidden in s then 0x08 else 0)
    | (if Activated in s then 0x10 else 0)
    | (if Deactivated in s then 0x20 else 0)
    | (if SizeChanged in s then 0x40 else 0)
    | (if PositionChanged in s then 0x80 else 0)
  }

  /** The tags an `EventFlags` word has set. */
  function EventSet(m: bv8): (s: set<Event>)
    ensures forall f :: f in s <==> m & EventBit(f) != 0
  {
    set f | f in AllEvents && m & EventBit(f) != 0
  }

  /** Encoding a status set and decoding it gives the set back. */
  lemma StatusRoundTrip(s: set<Status>)
    ensures StatusSet(StatusMask(s)) == s
  {
  }

  /** Decoding a status word and re-encoding it keeps exactly the defined bits. */
  lemma StatusWordRoundTrip(m: bv8)
    ensures StatusMask(StatusSet(m)) == m & 0xF
  {
    var s := StatusSet(m);
    assert (Status.Created in s) == (m & 0x1 != 0);
    assert (Active in s) == (m & 0x2 != 0);
    assert (Visible in s) == (m & 0x4 != 0);
    assert (Fullscreen in s) == (m & 0x8 != 0);
  }

  /** `flags |= bits` on the word is union on the set. */
  lemma StatusOrIsUnion(a: set<Status>, b: set<Status>)
    ensures StatusMask(a + b) == StatusMask(a) | StatusMask(b)
  {
  }

  /** `flags &= ~bits` on the word is difference on the set. */
  lemma StatusAndNotIsDifference(a: set<Status>, b: set<Status>)
    ensures StatusMask(a - b) == StatusMask(a) & !StatusMask(b)
  {
  }

  /** Encoding an event set and decoding it gives the set back. */
  lemma EventRoundTrip(s: set<Event>)
    ensures EventSet(EventMask(s)) == s
  {
  }

  /** Decoding an event word and re-encoding it gives the word back. */
  lemma EventWordRoundTrip(m: bv8)
    ensures EventMask(EventSet(m)) == m
  {
    var s := EventSet(m);
    assert (Event.Created in s) == (m & 0x01 != 0);
    assert (Destroyed in s) == (m & 0x02 != 0);
    assert (Shown in s) == (m & 0x04 != 0);
    assert (Hidden in s) == (m & 0x08 != 0);
    assert (Activated in s) == (m & 0x10 != 0);
    assert (Deactivated in s) == (m & 0x20 != 0);
    assert (SizeChanged in s) == (m & 0x40 != 0);
    assert (PositionChanged in s) == (m & 0x80 != 0);
  }

  /** `flags |= bits` on the event word is union on the set. */
  lemma EventOrIsUnion(a: set<Event>, b: set<Event>)
    ensures EventMask(a + b) == EventMask(a) | EventMask(b)
  {
  }
}

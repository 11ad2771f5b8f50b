/** multistream-select negotiation: length-prefixed tokens in both directions until a protocol
    is agreed, including simultaneous connect and agreements that are taken back. */
module Multistream {
  import opened Bytes
  import opened Framing
  import Varint

  // --------------------------------------------------------------------- tokens

  const NEWLINE: byte := 10
  const INITIATOR: seq<byte> := [10, 105, 110, 105, 116, 105, 97, 116, 111, 114, 10]
  const RESPONDER: seq<byte> := [10, 114, 101, 115, 112, 111, 110, 100, 101, 114, 10]
  const MULTISTREAM: seq<byte> := [47, 109, 117, 108, 116, 105, 115, 116, 114, 101, 97, 109, 47]
  const SIMULTANEOUS: seq<byte> := [47, 108, 105, 98, 112, 50, 112, 47, 115, 105, 109, 117, 108, 116, 97, 110,
                                    101, 111, 117, 115, 45, 99, 111, 110, 110, 101, 99, 116]
  const NA: seq<byte> := [110, 97]
  const SELECT: seq<byte> := [115, 101, 108, 101, 99, 116]

  /** The bytes of a text. */
  ghost function Ascii(text: string): seq<byte>
    requires forall i :: 0 <= i < |text| ==> text[i] < 128 as char
  {
    seq(|text|, i requires 0 <= i < |text| => text[i] as int)
  }

  /** What the words spell. */
  lemma WordsSpell()
    ensures INITIATOR == Ascii("\ninitiator\n") && RESPONDER == Ascii("\nresponder\n")
    ensures MULTISTREAM == Ascii("/multistream/") && SIMULTANEOUS == Ascii("/libp2p/simultaneous-connect")
    ensures NA == Ascii("na") && SELECT == Ascii("select") && [NEWLINE] == Ascii("\n")
  {
  }

  datatype Token = Text(name: seq<byte>) | InitiatorToken | ResponderToken | Invalid(bytes: seq<byte>)

  /** Text without its trailing newlines. */
  function Trim(s: seq<byte>): seq<byte> {
    if s != [] && s[|s| - 1] == NEWLINE then Trim(s[..|s| - 1]) else s
  }

  /** Length of the token at the front, by its varint prefix alone. */
  function Size(s: seq<byte>): Option<pos> {
    var (len, k) :- Varint.Decode(s);
    Some(k + len)
  }

  function Content(s: seq<byte>): seq<byte>
    requires HasFrame(Size, s)
  {
    s[Varint.Decode(s).value.1..Size(s).value]
  }

  /** The next token and its length. The two tokens of simultaneous connect are recognised by
      their bytes, everything else by its length prefix. */
  function Next(utf8: seq<byte> -> bool, s: seq<byte>): (r: Option<(Token, nat)>)
    ensures r.Some? ==> 1 <= r.value.1 <= |s|
  {
    if INITIATOR <= s then Some((InitiatorToken, 11)) else
    if RESPONDER <= s then Some((ResponderToken, 11)) else
    if !HasFrame(Size, s) then None else
    var msg := Content(s);
    Some((if utf8(msg) then Text(Trim(msg)) else Invalid(msg), Size(s).value))
  }

  lemma ElevenBytes(s: seq<byte>)
    requires |s| >= 11 && s[0] == 10
    ensures Size(s) == Some(11) && HasFrame(Size, s) && Content(s) == s[1..11]
  {
    assert Varint.Raw(s, 0) == Some((10, 1));
  }

  /** The short cut agrees with parsing by length: the same bytes are consumed, and they spell
      the token's name. */
  lemma ShortcutAgrees(utf8: seq<byte> -> bool, s: seq<byte>)
    ensures Next(utf8, s).Some? <==> HasFrame(Size, s)
    ensures Next(utf8, s).Some? ==> Next(utf8, s).value.1 == Size(s).value
    ensures INITIATOR <= s ==> HasFrame(Size, s) && Content(s) == INITIATOR[1..]
    ensures RESPONDER <= s ==> HasFrame(Size, s) && Content(s) == RESPONDER[1..]
  {
    if INITIATOR <= s {
      ElevenBytes(s);
      assert s[1..11] == INITIATOR[1..];
    } else if RESPONDER <= s {
      ElevenBytes(s);
      assert s[1..11] == RESPONDER[1..];
    }
  }

  lemma SizeStable()
    ensures PrefixStable(Size) && !HasFrame(Size, [])
  {
    forall s: seq<byte>, t: seq<byte> | Size(s).Some?
      ensures Size(s + t) == Size(s)
    {
      Varint.DecodeStable(s, t);
    }
  }

  lemma NextStable(utf8: seq<byte> -> bool, s: seq<byte>, t: seq<byte>)
    requires Next(utf8, s).Some?
    ensures Next(utf8, s + t) == Next(utf8, s)
  {
    hide Varint.Decode, Trim;
    ShortcutAgrees(utf8, s);
    Varint.DecodeStable(s, t);
    if INITIATOR <= s + t {
      LongEnough(s, t);
    } else if RESPONDER <= s + t {
      LongEnough(s, t);
    } else {
      var (len, k) := Varint.Decode(s).value;
      assert (s + t)[k..k + len] == s[k..k + len];
    }
  }

  lemma LongEnough(s: seq<byte>, t: seq<byte>)
    requires HasFrame(Size, s) && |s + t| >= 11 && (s + t)[0] == 10
    ensures |s| >= 11 && (s + t)[..11] == s[..11]
  {
    SizeStable();
    assert Size(s + t) == Size(s);
    ElevenBytes(s + t);
  }

  // --------------------------------------------------------------- negotiation

  /** One direction: unparsed bytes, whether it has asked for simultaneous connect, and the
      protocol it has settled on. */
  datatype Side = Side(acc: seq<byte>, simultaneous: bool, done: Option<seq<byte>>)

  /** What a token does to its own and to the opposite direction. */
  function React(this_: Side, other: Side, t: Token): (Side, Side) {
    match t
    case Text(s) =>
      if MULTISTREAM <= s then (this_, other)
      else if SIMULTANEOUS <= s then
        (this_.(simultaneous := true), if other.simultaneous then other.(done := None) else other)
      else if s == NA then
        (this_, if other.simultaneous then other.(simultaneous := false) else other.(done := None))
      else if SELECT <= s then (this_, other)
      else if !(this_.simultaneous && other.simultaneous) then (this_.(done := Some(s)), other)
      else (this_, other)
    case Invalid(_) => (this_, other)
    case _ => (this_.(simultaneous := false), other)
  }

  datatype Drained = Drained(
    this_: Side, other: Side, frames: seq<seq<byte>>, tokens: seq<Token>, error: Option<seq<byte>>)

  /** Tokens are taken until one settles the protocol, one is no text, or none is complete. */
  function Drain(utf8: seq<byte> -> bool, this_: Side, other: Side): (r: Drained)
    ensures r.other.acc == other.acc
    decreases |this_.acc|
  {
    match Next(utf8, this_.acc)
    case None => Drained(this_, other, [], [], None)
    case Some((t, n)) =>
      var frame := this_.acc[..n];
      var rest := this_.(acc := this_.acc[n..]);
      if t.Invalid? then Drained(rest, other, [frame], [], Some(t.bytes)) else
      var (a, b) := React(rest, other, t);
      if a.done.Some? && rest.done.None? then Drained(a, b, [frame], [t], None) else
      var r := Drain(utf8, a, b);
      Drained(r.this_, r.other, [frame] + r.frames, [t] + r.tokens, r.error)
  }

  /** A consumed frame is one whole token. */
  lemma FrameIsToken(utf8: seq<byte> -> bool, s: seq<byte>)
    requires Next(utf8, s).Some?
    ensures var n := Next(utf8, s).value.1;
            Size(s[..n]) == Some(n)
  {
    ShortcutAgrees(utf8, s);
    Varint.RawLocal(s, 0, Next(utf8, s).value.1);
  }

  /** The case in which draining goes on after a token. */
  predicate Continues(rest: Side, t: Token, a: Side) {
    !t.Invalid? && !(a.done.Some? && rest.done.None?)
  }

  /** Draining loses nothing. */
  lemma {:induction false} DrainConserves(utf8: seq<byte> -> bool, this_: Side, other: Side)
    ensures var r := Drain(utf8, this_, other);
            Flatten(r.frames) + r.this_.acc == this_.acc
    decreases |this_.acc|
  {
    hide Next, React, Size;
    var next := Next(utf8, this_.acc);
    if next.Some? {
      var (t, n) := next.value;
      var rest := this_.(acc := this_.acc[n..]);
      var frame := this_.acc[..n];
      assert this_.acc == frame + rest.acc;
      FlattenSingle(frame);
      ReactKeepsBytes(rest, other, t);
      var (a, b) := React(rest, other, t);
      if Continues(rest, t, a) {
        DrainConserves(utf8, a, b);
        FlattenAppend([frame], Drain(utf8, a, b).frames);
      }
    }
  }

  /** What draining takes are whole tokens. */
  lemma {:induction false} DrainTakesTokens(utf8: seq<byte> -> bool, this_: Side, other: Side)
    ensures AllFrames(Size, Drain(utf8, this_, other).frames)
    decreases |this_.acc|
  {
    hide Next, React, Size;
    var next := Next(utf8, this_.acc);
    if next.Some? {
      var (t, n) := next.value;
      var rest := this_.(acc := this_.acc[n..]);
      FrameIsToken(utf8, this_.acc);
      ReactKeepsBytes(rest, other, t);
      var (a, b) := React(rest, other, t);
      if Continues(rest, t, a) {
        DrainTakesTokens(utf8, a, b);
        AllFramesAppend(Size, [this_.acc[..n]], Drain(utf8, a, b).frames);
      }
    }
  }

  lemma ReactKeepsBytes(this_: Side, other: Side, t: Token)
    ensures React(this_, other, t).0.acc == this_.acc && React(this_, other, t).1.acc == other.acc
    ensures forall s ::
              React(this_.(acc := s), other, t) == (React(this_, other, t).0.(acc := s), React(this_, other, t).1)
  {
  }

  predicate Stopped(r: Drained) { r.this_.done.Some? || r.error.Some? }

  /** Draining `acc` and then, unless it stopped, what is left of it with `t` is draining
      `acc + t`; if it stopped, the bytes of `t` just queue up behind. */
  lemma {:induction false} DrainAppend(utf8: seq<byte> -> bool, this_: Side, other: Side, t: seq<byte>)
    requires this_.done.None?
    ensures var r := Drain(utf8, this_, other);
            var r' := Drain(utf8, r.this_.(acc := r.this_.acc + t), r.other);
            Drain(utf8, this_.(acc := this_.acc + t), other)
            == if Stopped(r) then r.(this_ := r.this_.(acc := r.this_.acc + t))
               else Drained(r'.this_, r'.other, r.frames + r'.frames, r.tokens + r'.tokens, r'.error)
    decreases |this_.acc|
  {
    hide Next, React;
    var acc := this_.acc;
    var next := Next(utf8, acc);
    if next.Some? {
      var (tok, n) := next.value;
      NextStable(utf8, acc, t);
      assert (acc + t)[..n] == acc[..n] && (acc + t)[n..] == acc[n..] + t;
      var rest := this_.(acc := acc[n..]);
      ReactKeepsBytes(rest, other, tok);
      var (a, b) := React(rest, other, tok);
      assert React(rest.(acc := acc[n..] + t), other, tok) == (a.(acc := acc[n..] + t), b);
      if Continues(rest, tok, a) {
        DrainAppend(utf8, a, b, t);
        var r := Drain(utf8, a, b);
        var r' := Drain(utf8, r.this_.(acc := r.this_.acc + t), r.other);
        Associate([acc[..n]], r.frames, r'.frames);
        Associate([tok], r.tokens, r'.tokens);
      }
    }
  }

  // ------------------------------------------------------------------ whole runs

  datatype Item = Consumed(token: seq<byte>) | HandedUp(payload: seq<byte>)

  function ItemBytes(i: Item): seq<byte> { match i case Consumed(t) => t case HandedUp(p) => p }

  function ItemsBytes(items: seq<Item>): seq<byte> {
    if items == [] then [] else ItemBytes(items[0]) + ItemsBytes(items[1..])
  }

  function ConsumedItems(frames: seq<seq<byte>>): seq<Item> {
    if frames == [] then [] else [Consumed(frames[0])] + ConsumedItems(frames[1..])
  }

  lemma {:induction false} ConsumedBytes(frames: seq<seq<byte>>)
    ensures ItemsBytes(ConsumedItems(frames)) == Flatten(frames)
  {
    if frames != [] {
      ConsumedBytes(frames[1..]);
      assert ConsumedItems(frames)[1..] == ConsumedItems(frames[1..]);
    }
  }

  lemma {:induction false} ItemsBytesAppend(a: seq<Item>, b: seq<Item>)
    ensures ItemsBytes(a + b) == ItemsBytes(a) + ItemsBytes(b)
  {
    if a == [] {
      assert a + b == b;
    } else {
      ItemsBytesAppend(a[1..], b);
      assert (a + b)[1..] == a[1..] + b;
      Associate(ItemBytes(a[0]), ItemsBytes(a[1..]), ItemsBytes(b));
    }
  }

  /** Both directions; `error` is set by a token that is no text and never cleared. */
  datatype Conn = Conn(incoming: Side, outgoing: Side, error: bool) {
    function Of(d: bool): Side { if d then incoming else outgoing }
  }

  function Fresh(): Conn { Conn(Side([], false, None), Side([], false, None), false) }

  datatype Output = Output(tokens: seq<Token>, error: Option<seq<byte>>, agreed: Option<(seq<byte>, seq<byte>)>)

  function Joined(d: bool, this_: Side, other: Side, error: bool): Conn {
    if d then Conn(this_, other, error) else Conn(other, this_, error)
  }

  /** One chunk: after an error it is ignored; once a protocol is settled, everything is handed
      up; until then tokens are taken. */
  function Poll(utf8: seq<byte> -> bool, c: Conn, d: bool, bytes: seq<byte>): (Conn, Output, seq<Item>) {
    var this_, other := c.Of(d), c.Of(!d);
    if c.error then (c, Output([], None, None), [])
    else if this_.done.Some? then
      var data := this_.acc + bytes;
      (Joined(d, this_.(acc := []), other, false), Output([], None, Some((this_.done.value, data))), [HandedUp(data)])
    else
      var r := Drain(utf8, this_.(acc := this_.acc + bytes), other);
      (Joined(d, r.this_, r.other, r.error.Some?), Output(r.tokens, r.error, None), ConsumedItems(r.frames))
  }

  lemma PollConserves(utf8: seq<byte> -> bool, c: Conn, d: bool, bytes: seq<byte>)
    ensures var (c', _, items) := Poll(utf8, c, d, bytes);
            && (if c.error then c' == c && items == []
                else ItemsBytes(items) + c'.Of(d).acc == c.Of(d).acc + bytes)
            && c'.Of(!d).acc == c.Of(!d).acc
  {
    var this_ := c.Of(d);
    if c.error {
    } else if this_.done.Some? {
      assert [HandedUp(this_.acc + bytes)][1..] == [];
    } else {
      DrainConserves(utf8, this_.(acc := this_.acc + bytes), c.Of(!d));
      ConsumedBytes(Drain(utf8, this_.(acc := this_.acc + bytes), c.Of(!d)).frames);
    }
  }

  function After(utf8: seq<byte> -> bool, c: Conn, chunks: seq<Event>): Conn
    decreases chunks
  {
    if chunks == [] then c else After(utf8, Poll(utf8, c, chunks[0].0, chunks[0].1).0, chunks[1..])
  }

  /** Everything one direction consumed or handed up, in order. */
  function Items(utf8: seq<byte> -> bool, c: Conn, d: bool, chunks: seq<Event>): seq<Item>
    decreases chunks
  {
    if chunks == [] then [] else
    var (c', _, items) := Poll(utf8, c, chunks[0].0, chunks[0].1);
    (if chunks[0].0 == d then items else []) + Items(utf8, c', d, chunks[1..])
  }

  /** What one direction receives after the error. */
  function Ignored(utf8: seq<byte> -> bool, c: Conn, d: bool, chunks: seq<Event>): seq<byte>
    decreases chunks
  {
    if chunks == [] then [] else
    (if chunks[0].0 == d && c.error then chunks[0].1 else [])
    + Ignored(utf8, Poll(utf8, c, chunks[0].0, chunks[0].1).0, d, chunks[1..])
  }

  /** After an error nothing happens any more. */
  lemma {:induction false} ErrorIsFinal(utf8: seq<byte> -> bool, c: Conn, d: bool, chunks: seq<Event>)
    requires c.error
    ensures After(utf8, c, chunks) == c && Items(utf8, c, d, chunks) == []
    ensures Ignored(utf8, c, d, chunks) == Stream(d, chunks)
    decreases chunks
  {
    if chunks != [] {
      ErrorIsFinal(utf8, c, d, chunks[1..]);
    }
  }

  /** In every run, with any interleaving and any retraction, what a direction received is what
      it consumed as tokens and handed up, in order, followed by what it still buffers and by
      what came after an error. */
  lemma {:induction false} RunConserves(utf8: seq<byte> -> bool, c: Conn, d: bool, chunks: seq<Event>)
    ensures ItemsBytes(Items(utf8, c, d, chunks))
            + (After(utf8, c, chunks).Of(d).acc + Ignored(utf8, c, d, chunks))
            == c.Of(d).acc + Stream(d, chunks)
    decreases chunks
  {
    hide Drain, Poll;
    if c.error {
      ErrorIsFinal(utf8, c, d, chunks);
    } else if chunks != [] {
      var (e, b) := chunks[0];
      var (c', _, items) := Poll(utf8, c, e, b);
      PollConserves(utf8, c, e, b);
      RunConserves(utf8, c', d, chunks[1..]);
      StreamFirst(d, c.Of(d).acc, chunks);
      var rest := Items(utf8, c', d, chunks[1..]);
      assert Ignored(utf8, c, d, chunks) == Ignored(utf8, c', d, chunks[1..]);
      if e == d {
        ItemsBytesAppend(items, rest);
        var tail := After(utf8, c', chunks[1..]).Of(d).acc + Ignored(utf8, c', d, chunks[1..]);
        Associate(ItemsBytes(items), ItemsBytes(rest), tail);
        Associate(ItemsBytes(items), c'.Of(d).acc, Stream(d, chunks[1..]));
      } else {
        assert c'.Of(d).acc == c.Of(d).acc && [] + rest == rest;
      }
    }
  }

  /** A consumed item is one whole token. */
  ghost predicate WholeTokens(items: seq<Item>) {
    forall i :: 0 <= i < |items| && items[i].Consumed? ==> Size(items[i].token) == Some(|items[i].token|)
  }

  lemma {:induction false} ConsumedWhole(frames: seq<seq<byte>>)
    requires AllFrames(Size, frames)
    ensures WholeTokens(ConsumedItems(frames))
  {
    if frames != [] {
      ConsumedWhole(frames[1..]);
    }
  }

  lemma {:induction false} RunTokensWhole(utf8: seq<byte> -> bool, c: Conn, d: bool, chunks: seq<Event>)
    ensures WholeTokens(Items(utf8, c, d, chunks))
    decreases chunks
  {
    hide Drain, Size;
    if chunks != [] {
      var (e, b) := chunks[0];
      var this_ := c.Of(e);
      if this_.done.None? && !c.error {
        DrainTakesTokens(utf8, this_.(acc := this_.acc + b), c.Of(!e));
        ConsumedWhole(Drain(utf8, this_.(acc := this_.acc + b), c.Of(!e)).frames);
      }
      RunTokensWhole(utf8, Poll(utf8, c, e, b).0, d, chunks[1..]);
    }
  }

  // ---------------------------------------------------------- chunk independence

  /** The bytes handed up. */
  function Up(items: seq<Item>): seq<byte> {
    if items == [] then [] else (if items[0].HandedUp? then items[0].payload else []) + Up(items[1..])
  }

  /** The tokens consumed. */
  function Tokens(items: seq<Item>): seq<seq<byte>> {
    if items == [] then [] else (if items[0].Consumed? then [items[0].token] else []) + Tokens(items[1..])
  }

  lemma {:induction false} UpAppend(a: seq<Item>, b: seq<Item>)
    ensures Up(a + b) == Up(a) + Up(b)
  {
    if a == [] {
      assert a + b == b;
    } else {
      UpAppend(a[1..], b);
      assert (a + b)[1..] == a[1..] + b;
      Associate(if a[0].HandedUp? then a[0].payload else [], Up(a[1..]), Up(b));
    }
  }

  lemma {:induction false} TokensAppend(a: seq<Item>, b: seq<Item>)
    ensures Tokens(a + b) == Tokens(a) + Tokens(b)
  {
    if a == [] {
      assert a + b == b;
    } else {
      TokensAppend(a[1..], b);
      assert (a + b)[1..] == a[1..] + b;
      Associate(if a[0].Consumed? then [a[0].token] else [], Tokens(a[1..]), Tokens(b));
    }
  }

  lemma {:induction false} ConsumedUp(frames: seq<seq<byte>>)
    ensures Up(ConsumedItems(frames)) == [] && Tokens(ConsumedItems(frames)) == frames
  {
    if frames != [] {
      ConsumedUp(frames[1..]);
      assert ConsumedItems(frames)[1..] == ConsumedItems(frames[1..]);
    }
  }

  ghost predicate AllIn(d: bool, chunks: seq<Event>) {
    forall i :: 0 <= i < |chunks| ==> chunks[i].0 == d
  }

  /** The first chunk of a run of one direction. */
  lemma FirstPoll(utf8: seq<byte> -> bool, c: Conn, d: bool, chunks: seq<Event>)
    requires chunks != [] && AllIn(d, chunks)
    ensures var (c1, _, items) := Poll(utf8, c, d, chunks[0].1);
            && After(utf8, c, chunks) == After(utf8, c1, chunks[1..])
            && Tokens(Items(utf8, c, d, chunks)) == Tokens(items) + Tokens(Items(utf8, c1, d, chunks[1..]))
            && Up(Items(utf8, c, d, chunks)) == Up(items) + Up(Items(utf8, c1, d, chunks[1..]))
  {
    hide Poll, Tokens, Up;
    var (c1, _, items) := Poll(utf8, c, d, chunks[0].1);
    UpAppend(items, Items(utf8, c1, d, chunks[1..]));
    TokensAppend(items, Items(utf8, c1, d, chunks[1..]));
  }

  lemma SettledPoll(utf8: seq<byte> -> bool, c: Conn, d: bool, bytes: seq<byte>)
    requires !c.error && c.Of(d).done.Some?
    ensures var (c1, _, items) := Poll(utf8, c, d, bytes);
            && c1 == Joined(d, c.Of(d).(acc := []), c.Of(!d), false)
            && Tokens(items) == [] && Up(items) == c.Of(d).acc + bytes
  {
    var items := [HandedUp(c.Of(d).acc + bytes)];
    assert items[1..] == [];
  }

  lemma UnsettledPoll(utf8: seq<byte> -> bool, c: Conn, d: bool, bytes: seq<byte>)
    requires !c.error && c.Of(d).done.None?
    ensures var (c1, _, items) := Poll(utf8, c, d, bytes);
            var r := Drain(utf8, c.Of(d).(acc := c.Of(d).acc + bytes), c.Of(!d));
            && c1 == Joined(d, r.this_, r.other, r.error.Some?)
            && Tokens(items) == r.frames && Up(items) == []
  {
    hide Drain;
    ConsumedUp(Drain(utf8, c.Of(d).(acc := c.Of(d).acc + bytes), c.Of(!d)).frames);
  }

  /** A settled direction hands everything up as soon as one more chunk comes. */
  lemma {:induction false} SettledSide(utf8: seq<byte> -> bool, c: Conn, d: bool, chunks: seq<Event>)
    requires !c.error && c.Of(d).done.Some? && AllIn(d, chunks)
    ensures var c' := After(utf8, c, chunks);
            var items := Items(utf8, c, d, chunks);
            && Tokens(items) == []
            && if chunks == [] then c' == c && Up(items) == []
               else && c' == Joined(d, c.Of(d).(acc := []), c.Of(!d), false)
                    && Up(items) == c.Of(d).acc + Stream(d, chunks)
    decreases chunks
  {
    if chunks != [] {
      hide After, Items, Poll, Tokens, Up, Stream;
      var b, rest := chunks[0].1, chunks[1..];
      var c1 := Poll(utf8, c, d, b).0;
      FirstPoll(utf8, c, d, chunks);
      SettledPoll(utf8, c, d, b);
      SettledSide(utf8, c1, d, rest);
      StreamFirst(d, c.Of(d).acc, chunks);
      NoStream(d);
    } else {
      NoItems();
    }
  }

  lemma NoStream(d: bool)
    ensures Stream(d, []) == []
  {
  }

  /** The protocol is settled before the last chunk comes. */
  predicate Early(utf8: seq<byte> -> bool, this_: Side, other: Side, d: bool, chunks: seq<Event>) {
    chunks != [] && Drain(utf8, this_.(acc := this_.acc + Stream(d, chunks[..|chunks| - 1])), other).this_.done.Some?
  }

  /** What a run of one direction leaves, compared with draining all its bytes at once: what is
      behind the tokens is handed up if a chunk came after the protocol was settled, and else it
      is buffered. */
  ghost predicate Matches(c': Conn, items: seq<Item>, d: bool, r: Drained, early: bool) {
    && c' == Joined(d, r.this_.(acc := c'.Of(d).acc), r.other, r.error.Some?)
    && Tokens(items) == r.frames
    && if r.error.Some? then Up(items) == []
       else if early then Up(items) == r.this_.acc && c'.Of(d).acc == []
       else Up(items) == [] && c'.Of(d).acc == r.this_.acc
  }

  /** However one direction is chunked, it consumes the same tokens and ends in the same state, in
      error or not. What follows the tokens is handed up, all of it, if and only if a chunk comes
      after the one that settles the protocol. */
  lemma {:induction false} OneSideChunking(utf8: seq<byte> -> bool, c: Conn, d: bool, chunks: seq<Event>)
    requires !c.error && c.Of(d).done.None? && AllIn(d, chunks) && Next(utf8, c.Of(d).acc).None?
    ensures Matches(After(utf8, c, chunks), Items(utf8, c, d, chunks), d,
                    Drain(utf8, c.Of(d).(acc := c.Of(d).acc + Stream(d, chunks)), c.Of(!d)),
                    Early(utf8, c.Of(d), c.Of(!d), d, chunks))
    decreases chunks
  {
    hide After, Items, Poll, Tokens, Up, Drain, Next, Stream, Early;
    var this_, other := c.Of(d), c.Of(!d);
    if chunks == [] {
      NoChunks(utf8, c, d);
    } else {
      var b, rest := chunks[0].1, chunks[1..];
      var s := this_.(acc := this_.acc + b);
      var r := Drain(utf8, s, other);
      var total := Drain(utf8, s.(acc := s.acc + Stream(d, rest)), other);
      StreamFirst(d, this_.acc, chunks);
      assert total == Drain(utf8, this_.(acc := this_.acc + Stream(d, chunks)), other);
      DrainAppend(utf8, s, other, Stream(d, rest));
      EarlyRest(utf8, this_, other, d, chunks);
      FirstPoll(utf8, c, d, chunks);
      UnsettledPoll(utf8, c, d, b);
      var c1 := Poll(utf8, c, d, b).0;
      var items, later := Items(utf8, c, d, chunks), Items(utf8, c1, d, rest);
      if r.error.Some? {
        ErrorIsFinal(utf8, c1, d, rest);
        NoItems();
      } else if r.this_.done.Some? {
        SettledSide(utf8, c1, d, rest);
        NoStream(d);
        Combine(After(utf8, c1, rest), items, later, d, r,
          Drained(r.this_.(acc := r.this_.acc + Stream(d, rest)), r.other, [], [], None), total, rest != []);
      } else {
        DrainExhausts(utf8, s, other);
        OneSideChunking(utf8, c1, d, rest);
        Combine(After(utf8, c1, rest), items, later, d, r,
          Drain(utf8, r.this_.(acc := r.this_.acc + Stream(d, rest)), r.other), total,
          Early(utf8, r.this_, r.other, d, rest));
      }
    }
  }

  /** Whether the protocol is settled early, seen from behind the first chunk. */
  lemma EarlyRest(utf8: seq<byte> -> bool, this_: Side, other: Side, d: bool, chunks: seq<Event>)
    requires chunks != [] && AllIn(d, chunks) && this_.done.None? && Next(utf8, this_.acc).None?
    ensures var r := Drain(utf8, this_.(acc := this_.acc + chunks[0].1), other);
            Early(utf8, this_, other, d, chunks) ==
            if r.error.Some? then Early(utf8, this_, other, d, chunks)
            else if r.this_.done.Some? then chunks[1..] != [] else Early(utf8, r.this_, r.other, d, chunks[1..])
  {
    hide Drain, Next;
    var rest, before := chunks[1..], chunks[..|chunks| - 1];
    var s := this_.(acc := this_.acc + chunks[0].1);
    if rest == [] {
      assert Stream(d, before) == [] && this_.acc + [] == this_.acc;
      DrainNothing(utf8, this_, other);
    } else {
      var middle := rest[..|rest| - 1];
      assert before[0] == chunks[0] && before[1..] == middle;
      StreamFirst(d, this_.acc, before);
      DrainAppend(utf8, s, other, Stream(d, middle));
    }
  }

  lemma NoItems()
    ensures Tokens([]) == [] && Up([]) == []
  {
  }

  lemma NoChunks(utf8: seq<byte> -> bool, c: Conn, d: bool)
    requires !c.error && Next(utf8, c.Of(d).acc).None?
    ensures Matches(After(utf8, c, []), Items(utf8, c, d, []), d,
                    Drain(utf8, c.Of(d).(acc := c.Of(d).acc + Stream(d, [])), c.Of(!d)),
                    Early(utf8, c.Of(d), c.Of(!d), d, []))
  {
    assert c.Of(d).acc + [] == c.Of(d).acc;
    DrainNothing(utf8, c.Of(d), c.Of(!d));
  }

  lemma Combine(c': Conn, items: seq<Item>, later: seq<Item>, d: bool, r: Drained, r': Drained, total: Drained,
                early: bool)
    requires Matches(c', later, d, r', early)
    requires Tokens(items) == r.frames + Tokens(later) && Up(items) == [] + Up(later)
    requires total.this_ == r'.this_ && total.other == r'.other && total.error == r'.error
    requires total.frames == r.frames + r'.frames
    ensures Matches(c', items, d, total, early)
  {
  }

  lemma DrainNothing(utf8: seq<byte> -> bool, this_: Side, other: Side)
    requires Next(utf8, this_.acc).None?
    ensures Drain(utf8, this_, other) == Drained(this_, other, [], [], None)
  {
  }

  lemma {:induction false} DrainExhausts(utf8: seq<byte> -> bool, this_: Side, other: Side)
    requires !Stopped(Drain(utf8, this_, other)) && this_.done.None?
    ensures Next(utf8, Drain(utf8, this_, other).this_.acc).None?
    decreases |this_.acc|
  {
    hide Next, React;
    var next := Next(utf8, this_.acc);
    if next.Some? {
      var (t, n) := next.value;
      var rest := this_.(acc := this_.acc[n..]);
      ReactKeepsBytes(rest, other, t);
      var (a, b) := React(rest, other, t);
      DrainExhausts(utf8, a, b);
    }
  }

  // ------------------------------------------------------------------- the outputs

  /** One more chunk. */
  lemma {:induction false} RunSnoc(utf8: seq<byte> -> bool, c: Conn, d: bool, chunks: seq<Event>, e: bool, b: seq<byte>)
    ensures var (c', _, items) := Poll(utf8, After(utf8, c, chunks), e, b);
            && After(utf8, c, chunks + [(e, b)]) == c'
            && Items(utf8, c, d, chunks + [(e, b)]) == Items(utf8, c, d, chunks) + if e == d then items else []
    decreases chunks
  {
    hide Poll;
    var all := chunks + [(e, b)];
    if chunks == [] {
      assert all[1..] == [];
    } else {
      assert all[1..] == chunks[1..] + [(e, b)];
      RunSnoc(utf8, Poll(utf8, c, chunks[0].0, chunks[0].1).0, d, chunks[1..], e, b);
    }
  }

  lemma {:induction false} RunAppend(utf8: seq<byte> -> bool, c: Conn, d: bool, a: seq<Event>, b: seq<Event>)
    ensures After(utf8, c, a + b) == After(utf8, After(utf8, c, a), b)
    ensures Items(utf8, c, d, a + b) == Items(utf8, c, d, a) + Items(utf8, After(utf8, c, a), d, b)
    decreases a
  {
    hide Poll;
    if a == [] {
      assert a + b == b;
    } else {
      assert (a + b)[1..] == a[1..] + b;
      RunAppend(utf8, Poll(utf8, c, a[0].0, a[0].1).0, d, a[1..], b);
    }
  }

  /** The chunks of one direction give the other one nothing. */
  lemma {:induction false} OtherItems(utf8: seq<byte> -> bool, c: Conn, d: bool, chunks: seq<Event>)
    requires AllIn(!d, chunks)
    ensures Items(utf8, c, d, chunks) == []
    decreases chunks
  {
    hide Poll;
    if chunks != [] {
      OtherItems(utf8, Poll(utf8, c, chunks[0].0, chunks[0].1).0, d, chunks[1..]);
    }
  }

  /** The same for the tokens and the bytes handed up. */
  lemma ItemsSnoc(utf8: seq<byte> -> bool, d: bool, chunks: seq<Event>, e: bool, b: seq<byte>)
    ensures var (c', _, items) := Poll(utf8, After(utf8, Fresh(), chunks), e, b);
            var before, now := Items(utf8, Fresh(), d, chunks), Items(utf8, Fresh(), d, chunks + [(e, b)]);
            && After(utf8, Fresh(), chunks + [(e, b)]) == c'
            && Tokens(now) == Tokens(before) + (if e == d then Tokens(items) else [])
            && Up(now) == Up(before) + (if e == d then Up(items) else [])
  {
    hide Poll, Tokens, Up, After, Items;
    RunSnoc(utf8, Fresh(), d, chunks, e, b);
    var items := Poll(utf8, After(utf8, Fresh(), chunks), e, b).2;
    var before := Items(utf8, Fresh(), d, chunks);
    TokensAppend(before, items);
    UpAppend(before, items);
    assert before + [] == before && Tokens(before) + [] == Tokens(before) && Up(before) + [] == Up(before);
  }

  /** What the calls for one direction return. */
  function Outputs(utf8: seq<byte> -> bool, c: Conn, d: bool, chunks: seq<Event>): seq<Output> {
    if chunks == [] then [] else
    var n := |chunks| - 1;
    var o := Poll(utf8, After(utf8, c, chunks[..n]), chunks[n].0, chunks[n].1).1;
    Outputs(utf8, c, d, chunks[..n]) + if chunks[n].0 == d then [o] else []
  }

  /** The data that the protocol is given. */
  function Handed(os: seq<Output>): seq<byte> {
    if os == [] then [] else
    var o := os[|os| - 1];
    Handed(os[..|os| - 1]) + if o.agreed.Some? then o.agreed.value.1 else []
  }

  /** The tokens that are reported. */
  function Reported(os: seq<Output>): seq<Token> {
    if os == [] then [] else Reported(os[..|os| - 1]) + os[|os| - 1].tokens
  }

  /** The bytes that were no text. */
  function Failed(os: seq<Output>): Option<seq<byte>> {
    if os == [] then None else
    if os[|os| - 1].error.Some? then os[|os| - 1].error else Failed(os[..|os| - 1])
  }

  /** Some bytes are exactly one token. */
  predicate Reads(utf8: seq<byte> -> bool, f: seq<byte>, t: Token) {
    Next(utf8, f) == Some((t, |f|))
  }

  /** The frames are the reported tokens and, if something failed, what was no text. */
  predicate Tells(utf8: seq<byte> -> bool, fs: seq<seq<byte>>, ts: seq<Token>, failed: Option<seq<byte>>) {
    && |fs| == |ts| + (if failed.Some? then 1 else 0)
    && (forall i :: 0 <= i < |ts| ==> Reads(utf8, fs[i], ts[i]) && !ts[i].Invalid?)
    && (failed.Some? ==> Reads(utf8, fs[|ts|], Invalid(failed.value)))
  }

  /** A text that can name a protocol. */
  predicate Names(t: Token) {
    t.Text? && !(MULTISTREAM <= t.name) && !(SIMULTANEOUS <= t.name) && t.name != NA && !(SELECT <= t.name)
  }

  /** The last protocol named. */
  function LastName(ts: seq<Token>): Option<seq<byte>> {
    if ts == [] then None else
    if Names(ts[|ts| - 1]) then Some(ts[|ts| - 1].name) else LastName(ts[..|ts| - 1])
  }

  /** Data is handed to the protocol that was named last before. */
  ghost predicate UnderLastName(os: seq<Output>) {
    forall k :: 0 <= k < |os| && os[k].agreed.Some? ==>
      LastName(Reported(os[..k])) == Some(os[k].agreed.value.0)
  }

  /** A frame that is cut out still reads as its token. */
  lemma FrameReads(utf8: seq<byte> -> bool, s: seq<byte>)
    requires Next(utf8, s).Some?
    ensures var (t, n) := Next(utf8, s).value;
            Reads(utf8, s[..n], t)
  {
    var n := Next(utf8, s).value.1;
    FrameIsToken(utf8, s);
    hide Varint.Decode, Trim;
    ShortcutAgrees(utf8, s[..n]);
    NextStable(utf8, s[..n], s[n..]);
    assert s[..n] + s[n..] == s;
  }

  lemma {:induction false} DrainTells(utf8: seq<byte> -> bool, this_: Side, other: Side)
    ensures var r := Drain(utf8, this_, other);
            Tells(utf8, r.frames, r.tokens, r.error)
    decreases |this_.acc|
  {
    hide Next, React, Reads;
    var next := Next(utf8, this_.acc);
    if next.Some? {
      var (t, n) := next.value;
      FrameReads(utf8, this_.acc);
      var rest := this_.(acc := this_.acc[n..]);
      ReactKeepsBytes(rest, other, t);
      var (a, b) := React(rest, other, t);
      if Continues(rest, t, a) {
        DrainTells(utf8, a, b);
      }
    }
  }

  lemma ReactNames(this_: Side, other: Side, t: Token)
    ensures var (a, b) := React(this_, other, t);
            && (a.done == this_.done || (Names(t) && a.done == Some(t.name)))
            && (b.done == other.done || b.done.None?)
  {
  }

  lemma {:induction false} LastNameAppend(a: seq<Token>, b: seq<Token>)
    ensures LastName(a + b) == if LastName(b).Some? then LastName(b) else LastName(a)
    decreases |b|
  {
    if b == [] {
      assert a + b == a;
    } else {
      assert (a + b)[..|a + b| - 1] == a + b[..|b| - 1];
      LastNameAppend(a, b[..|b| - 1]);
    }
  }

  /** A direction settles on the last name it gave; it can only unsettle the other one. */
  lemma {:induction false} DrainNames(utf8: seq<byte> -> bool, this_: Side, other: Side)
    requires this_.done.None?
    ensures var r := Drain(utf8, this_, other);
            && (r.this_.done.Some? ==> r.this_.done == LastName(r.tokens))
            && (r.other.done == other.done || r.other.done.None?)
    decreases |this_.acc|
  {
    hide Next, React, Names;
    var next := Next(utf8, this_.acc);
    if next.Some? {
      var (t, n) := next.value;
      var rest := this_.(acc := this_.acc[n..]);
      ReactKeepsBytes(rest, other, t);
      ReactNames(rest, other, t);
      var (a, b) := React(rest, other, t);
      assert [t][..0] == [];
      if Continues(rest, t, a) {
        DrainNames(utf8, a, b);
        LastNameAppend([t], Drain(utf8, a, b).tokens);
      }
    }
  }

  lemma OutputsLast(utf8: seq<byte> -> bool, c: Conn, d: bool, chunks: seq<Event>, e: bool, b: seq<byte>)
    ensures Outputs(utf8, c, d, chunks + [(e, b)])
            == Outputs(utf8, c, d, chunks) + if e == d then [Poll(utf8, After(utf8, c, chunks), e, b).1] else []
  {
    assert (chunks + [(e, b)])[..|chunks|] == chunks;
  }

  lemma HandedLast(os: seq<Output>, o: Output)
    ensures Handed(os + [o]) == Handed(os) + (if o.agreed.Some? then o.agreed.value.1 else [])
    ensures Reported(os + [o]) == Reported(os) + o.tokens
    ensures Failed(os + [o]) == if o.error.Some? then o.error else Failed(os)
  {
    assert (os + [o])[..|os|] == os;
  }

  lemma UnderLastNameLast(os: seq<Output>, o: Output)
    requires UnderLastName(os) && (o.agreed.Some? ==> LastName(Reported(os)) == Some(o.agreed.value.0))
    ensures UnderLastName(os + [o])
  {
    var all := os + [o];
    forall k | 0 <= k < |all| && all[k].agreed.Some?
      ensures LastName(Reported(all[..k])) == Some(all[k].agreed.value.0)
    {
      assert all[..k] == os[..k];
      if k == |os| {
        assert os[..k] == os;
      }
    }
  }

  /** One call, as far as its own direction goes. */
  lemma PollTells(utf8: seq<byte> -> bool, c: Conn, d: bool, b: seq<byte>)
    requires !c.error
    ensures var (c', o, items) := Poll(utf8, c, d, b);
            && Tells(utf8, Tokens(items), o.tokens, o.error) && (o.error.Some? ==> c'.error)
            && Up(items) == (if o.agreed.Some? then o.agreed.value.1 else [])
            && (o.agreed.Some? ==> o.tokens == [] && c.Of(d).done == Some(o.agreed.value.0) == c'.Of(d).done)
            && (o.agreed.None? && c'.Of(d).done.Some? ==> c'.Of(d).done == LastName(o.tokens))
            && (c'.Of(!d).done == c.Of(!d).done || c'.Of(!d).done.None?)
  {
    var this_, other := c.Of(d), c.Of(!d);
    if this_.done.Some? {
      SettledPoll(utf8, c, d, b);
    } else {
      UnsettledPoll(utf8, c, d, b);
      DrainTells(utf8, this_.(acc := this_.acc + b), other);
      DrainNames(utf8, this_.(acc := this_.acc + b), other);
      hide Drain;
    }
  }

  lemma TellsAppend(utf8: seq<byte> -> bool, fs: seq<seq<byte>>, ts: seq<Token>,
                    fs': seq<seq<byte>>, ts': seq<Token>, failed: Option<seq<byte>>)
    requires Tells(utf8, fs, ts, None) && Tells(utf8, fs', ts', failed)
    ensures Tells(utf8, fs + fs', ts + ts', failed)
  {
    hide Reads;
  }

  /** What holds of the outputs of one direction after a run. */
  ghost predicate Faithful(utf8: seq<byte> -> bool, d: bool, chunks: seq<Event>) {
    var os, items := Outputs(utf8, Fresh(), d, chunks), Items(utf8, Fresh(), d, chunks);
    var c := After(utf8, Fresh(), chunks);
    && Handed(os) == Up(items) && Tells(utf8, Tokens(items), Reported(os), Failed(os)) && UnderLastName(os)
    && (Failed(os).Some? ==> c.error)
    && (c.Of(d).done.Some? ==> c.Of(d).done == LastName(Reported(os)))
  }

  lemma FaithfulStep(utf8: seq<byte> -> bool, d: bool, chunks: seq<Event>, e: bool, b: seq<byte>)
    requires Faithful(utf8, d, chunks)
    ensures Faithful(utf8, d, chunks + [(e, b)])
  {
    hide Poll, After, Items, Outputs, Tokens, Up, Tells, Handed, Reported, Failed, UnderLastName, LastName;
    var c := After(utf8, Fresh(), chunks);
    var os, items := Outputs(utf8, Fresh(), d, chunks), Items(utf8, Fresh(), d, chunks);
    var (c', o, more) := Poll(utf8, c, e, b);
    ItemsSnoc(utf8, d, chunks, e, b);
    OutputsLast(utf8, Fresh(), d, chunks, e, b);
    if c.error {
      IgnoredPoll(utf8, c, e, b);
      HandedLast(os, o);
      UnderLastNameLast(os, o);
      assert Reported(os) + [] == Reported(os) && Tokens(items) + [] == Tokens(items);
      assert Handed(os) + [] == Handed(os) && os + [] == os;
    } else {
      PollTells(utf8, c, e, b);
      if e == d {
        HandedLast(os, o);
        UnderLastNameLast(os, o);
        TellsAppend(utf8, Tokens(items), Reported(os), Tokens(more), o.tokens, o.error);
        LastNameAppend(Reported(os), o.tokens);
        NoTokens();
      } else {
        assert os + [] == os && Tokens(items) + [] == Tokens(items) && Up(items) + [] == Up(items);
      }
    }
  }

  lemma NoTokens()
    ensures LastName([]) == None
  {
  }

  lemma IgnoredPoll(utf8: seq<byte> -> bool, c: Conn, d: bool, b: seq<byte>)
    requires c.error
    ensures var (c', o, items) := Poll(utf8, c, d, b);
            c' == c && o == Output([], None, None) && Tokens(items) == [] && Up(items) == []
  {
  }

  /** In every run, what the calls for a direction return is what it consumed and handed up. The
      data they carry make up the payload, each under the protocol that the direction named last.
      Their tokens are the texts of the consumed frames, in order, up to one that is no text. */
  lemma {:induction false} OutputsAreItems(utf8: seq<byte> -> bool, d: bool, chunks: seq<Event>)
    ensures Faithful(utf8, d, chunks)
    decreases |chunks|
  {
    if chunks != [] {
      var n := |chunks| - 1;
      hide Faithful;
      OutputsAreItems(utf8, d, chunks[..n]);
      FaithfulStep(utf8, d, chunks[..n], chunks[n].0, chunks[n].1);
      assert chunks[..n] + [(chunks[n].0, chunks[n].1)] == chunks;
    }
  }

  // ---------------------------------------------------------------- the machine

  class State {
    const utf8: seq<byte> -> bool
    var incoming: Side
    var outgoing: Side
    var error: bool

    ghost function View(): Conn
      reads this
    {
      Conn(incoming, outgoing, error)
    }

    constructor (u: seq<byte> -> bool)
      ensures View() == Fresh() && utf8 == u
    {
      utf8 := u;
      incoming, outgoing, error := Side([], false, None), Side([], false, None), false;
    }

    /** Takes tokens until one settles the protocol, one is no text, or none is complete. */
    method TakeTokens(start: Side, opposite: Side)
      returns (this_: Side, other: Side, tokens: seq<Token>, error: Option<seq<byte>>)
      requires start.done.None?
      ensures var r := Drain(utf8, start, opposite);
              this_ == r.this_ && other == r.other && tokens == r.tokens && error == r.error
    {
      hide Next, React;
      this_, other, tokens, error := start, opposite, [], None;
      ghost var all := Drain(utf8, start, opposite);
      while true
        invariant this_.done.None? && error.None?
        invariant var r := Drain(utf8, this_, other);
                  && all.this_ == r.this_ && all.other == r.other && all.error == r.error
                  && all.tokens == tokens + r.tokens
        decreases |this_.acc|
      {
        var next := Next(utf8, this_.acc);
        if next.None? {
          return;
        }
        var (t, n) := next.value;
        this_ := this_.(acc := this_.acc[n..]);
        if t.Invalid? {
          error := Some(t.bytes);
          return;
        }
        ReactKeepsBytes(this_, other, t);
        tokens := tokens + [t];
        this_, other := React(this_, other, t).0, React(this_, other, t).1;
        if this_.done.Some? {
          return;
        }
      }
    }

    method OnData(d: bool, bytes: seq<byte>) returns (o: Output)
      modifies this
      ensures View() == Poll(utf8, old(View()), d, bytes).0
      ensures o == Poll(utf8, old(View()), d, bytes).1
    {
      hide Drain;
      if error {
        return Output([], None, None);
      }
      var this_, other := if d then incoming else outgoing, if d then outgoing else incoming;
      if this_.done.Some? {
        o := Output([], None, Some((this_.done.value, this_.acc + bytes)));
        this_ := this_.(acc := []);
      } else {
        var tokens, failure;
        this_, other, tokens, failure := TakeTokens(this_.(acc := this_.acc + bytes), other);
        o := Output(tokens, failure, None);
        error := failure.Some?;
      }
      incoming, outgoing := if d then this_ else other, if d then other else this_;
    }
  }
}

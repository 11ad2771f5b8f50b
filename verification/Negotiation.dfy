/** One side of a negotiation: what its turn, however it is cut, makes of the state, and how the
    lines of a peer read as tokens. */
module Negotiation {
  import opened Bytes
  import opened Framing
  import opened Multistream
  import Varint

  /** A name that settles the protocol. */
  predicate Settles(name: seq<byte>) { Names(Text(name)) }

  /** The bytes `f` are exactly the token `t`. */
  predicate IsToken(utf8: seq<byte> -> bool, f: seq<byte>, t: Token) {
    Next(utf8, f) == Some((t, |f|)) && !t.Invalid?
  }

  predicate Spells(utf8: seq<byte> -> bool, fs: seq<seq<byte>>, ts: seq<Token>) {
    |fs| == |ts| && forall i :: 0 <= i < |fs| ==> IsToken(utf8, fs[i], ts[i])
  }

  /** The two directions after one of them has sent the tokens `ts`. */
  function Exchange(this_: Side, other: Side, ts: seq<Token>): (Side, Side)
    decreases ts
  {
    if ts == [] then (this_, other) else
    var (a, b) := React(this_, other, ts[0]);
    Exchange(a, b, ts[1..])
  }

  /** Only the last token, if any, settles the protocol. */
  predicate SettlesLast(this_: Side, other: Side, ts: seq<Token>)
    decreases ts
  {
    ts == [] ||
    var (a, b) := React(this_, other, ts[0]);
    this_.done.None? && SettlesLast(a, b, ts[1..])
  }

  lemma ExchangeOne(s0: Side, o0: Side, x: Token)
    ensures Exchange(s0, o0, [x]) == React(s0, o0, x)
    ensures SettlesLast(s0, o0, [x]) == s0.done.None?
  {
    hide React;
    var (s1, o1) := React(s0, o0, x);
    assert [x][1..] == [] && Exchange(s1, o1, []) == (s1, o1);
  }

  lemma ExchangeTwo(s0: Side, o0: Side, x: Token, y: Token)
    ensures var (s1, o1) := React(s0, o0, x);
            && Exchange(s0, o0, [x, y]) == React(s1, o1, y)
            && SettlesLast(s0, o0, [x, y]) == (s0.done.None? && s1.done.None?)
  {
    hide React;
    var (s1, o1) := React(s0, o0, x);
    assert [x, y][1..] == [y];
    ExchangeOne(s1, o1, y);
  }

  lemma {:induction false} ExchangeKeepsBytes(this_: Side, other: Side, ts: seq<Token>, s: seq<byte>)
    ensures Exchange(this_.(acc := s), other, ts)
            == (Exchange(this_, other, ts).0.(acc := s), Exchange(this_, other, ts).1)
    ensures SettlesLast(this_.(acc := s), other, ts) == SettlesLast(this_, other, ts)
    decreases ts
  {
    if ts != [] {
      hide React;
      ReactKeepsBytes(this_, other, ts[0]);
      var (a, b) := React(this_, other, ts[0]);
      ExchangeKeepsBytes(a, b, ts[1..], s);
    }
  }

  /** Draining bytes that begin with a token. */
  lemma DrainToken(utf8: seq<byte> -> bool, this_: Side, other: Side, f: seq<byte>, t: Token, rest: seq<byte>)
    requires this_.acc == f + rest && this_.done.None? && IsToken(utf8, f, t)
    ensures var (a, b) := React(this_.(acc := rest), other, t);
            Drain(utf8, this_, other) ==
            if a.done.Some? then Drained(a, b, [f], [t], None) else
            var r := Drain(utf8, a, b);
            Drained(r.this_, r.other, [f] + r.frames, [t] + r.tokens, r.error)
  {
    hide Next, React;
    NextStable(utf8, f, rest);
    assert this_.acc[..|f|] == f && this_.acc[|f|..] == rest;
    ReactKeepsBytes(this_.(acc := rest), other, t);
  }

  /** Draining some tokens, followed by what the agreed protocol sends or by an incomplete
      token. */
  lemma {:induction false} DrainTurn(
    utf8: seq<byte> -> bool, this_: Side, other: Side, fs: seq<seq<byte>>, ts: seq<Token>, tail: seq<byte>)
    requires Spells(utf8, fs, ts) && SettlesLast(this_, other, ts) && this_.done.None?
    requires this_.acc == Flatten(fs) + tail
    requires Exchange(this_, other, ts).0.done.Some? || Next(utf8, tail).None?
    ensures var (a, b) := Exchange(this_, other, ts);
            Drain(utf8, this_, other) == Drained(a.(acc := tail), b, fs, ts, None)
    decreases ts
  {
    hide Next, React, Drain, IsToken;
    if ts == [] {
      assert this_.acc == tail;
      DrainNothing(utf8, this_, other);
    } else {
      var rest := Flatten(fs[1..]) + tail;
      Associate(fs[0], Flatten(fs[1..]), tail);
      DrainToken(utf8, this_, other, fs[0], ts[0], rest);
      ExchangeKeepsBytes(this_, other, ts, rest);
      var (a, b) := React(this_.(acc := rest), other, ts[0]);
      ReactKeepsBytes(this_.(acc := rest), other, ts[0]);
      if a.done.Some? {
        assert ts[1..] == [] && fs[1..] == [];
      } else {
        DrainTurn(utf8, a, b, fs[1..], ts[1..], tail);
      }
      assert [fs[0]] + fs[1..] == fs && [ts[0]] + ts[1..] == ts;
      ExchangeKeepsBytes(this_, other, ts, tail);
    }
  }

  lemma NothingLeft(utf8: seq<byte> -> bool)
    ensures Next(utf8, []).None?
  {
  }

  /** The last chunk lies wholly within the last `n` bytes. */
  predicate Behind(chunks: seq<Event>, n: nat) {
    chunks != [] && |chunks[|chunks| - 1].1| <= n
  }

  /** A run that settles on its last token is settled early exactly if its last chunk carries
      nothing of the tokens. */
  lemma EarlyIsBehind(
    utf8: seq<byte> -> bool, this_: Side, other: Side, d: bool, chunks: seq<Event>,
    fs: seq<seq<byte>>, ts: seq<Token>, payload: seq<byte>)
    requires this_.acc == [] && this_.done.None? && AllIn(d, chunks) && Stream(d, chunks) == Flatten(fs) + payload
    requires Spells(utf8, fs, ts) && ts != [] && SettlesLast(this_, other, ts)
    requires Exchange(this_, other, ts).0.done.Some?
    ensures Early(utf8, this_, other, d, chunks) <==> Behind(chunks, |payload|)
  {
    if chunks != [] {
      hide Next, React, Drain, Exchange, SettlesLast, Spells;
      var n := |chunks| - 1;
      var before, last := Stream(d, chunks[..n]), chunks[n].1;
      StreamLast(d, chunks);
      assert this_.acc + before == before;
      if |last| <= |payload| {
        var part := payload[..|payload| - |last|];
        assert before == Flatten(fs) + part by { assert before == Stream(d, chunks)[..|before|]; }
        ExchangeKeepsBytes(this_, other, ts, before);
        DrainTurn(utf8, this_.(acc := before), other, fs, ts, part);
      } else {
        var r := Drain(utf8, this_.(acc := before), other);
        ExchangeKeepsBytes(this_, other, ts, Stream(d, chunks));
        DrainTurn(utf8, this_.(acc := Stream(d, chunks)), other, fs, ts, payload);
        DrainAppend(utf8, this_.(acc := before), other, last);
        DrainConserves(utf8, this_.(acc := before), other);
      }
    }
  }

  lemma {:induction false} StreamLast(d: bool, chunks: seq<Event>)
    requires chunks != [] && AllIn(d, chunks)
    ensures Stream(d, chunks) == Stream(d, chunks[..|chunks| - 1]) + chunks[|chunks| - 1].1
    decreases chunks
  {
    var n := |chunks| - 1;
    if n == 0 {
      assert chunks[..0] == [] && chunks[1..] == [];
    } else {
      StreamLast(d, chunks[1..]);
      assert chunks[1..][..n - 1] == chunks[..n][1..];
      Associate(chunks[0].1, Stream(d, chunks[..n][1..]), chunks[n].1);
    }
  }

  /** One turn of a negotiation, however it is chunked: exactly the tokens are consumed and both
      directions react to them. What follows them is handed up, all of it, if the last chunk
      lies behind the tokens; else nothing is handed up and it stays in the buffer. */
  lemma Turn(
    utf8: seq<byte> -> bool, c: Conn, d: bool, chunks: seq<Event>,
    fs: seq<seq<byte>>, ts: seq<Token>, payload: seq<byte>)
    requires !c.error && c.Of(d).acc == [] && c.Of(d).done.None?
    requires AllIn(d, chunks) && Stream(d, chunks) == Flatten(fs) + payload
    requires Spells(utf8, fs, ts) && ts != [] && SettlesLast(c.Of(d), c.Of(!d), ts)
    requires Exchange(c.Of(d), c.Of(!d), ts).0.done.Some? || payload == []
    ensures var items := Items(utf8, c, d, chunks);
            var (a, b) := Exchange(c.Of(d), c.Of(!d), ts);
            var up := Behind(chunks, |payload|);
            && After(utf8, c, chunks) == Joined(d, a.(acc := if up then [] else payload), b, false)
            && Tokens(items) == fs && Up(items) == (if up then payload else [])
  {
    hide Next, React, Drain, After, Items, Tokens, Up, Stream, Exchange, SettlesLast, Spells, Early, Behind;
    NothingLeft(utf8);
    OneSideChunking(utf8, c, d, chunks);
    var s := Stream(d, chunks);
    assert c.Of(d).acc + s == s;
    ExchangeKeepsBytes(c.Of(d), c.Of(!d), ts, s);
    DrainTurn(utf8, c.Of(d).(acc := s), c.Of(!d), fs, ts, payload);
    if Exchange(c.Of(d), c.Of(!d), ts).0.done.Some? {
      EarlyIsBehind(utf8, c.Of(d), c.Of(!d), d, chunks, fs, ts, payload);
    }
  }

  /** Everything handed over goes to `protocol`. */
  ghost predicate Under(os: seq<Output>, protocol: seq<byte>) {
    forall k :: 0 <= k < |os| && os[k].agreed.Some? ==> os[k].agreed.value.0 == protocol
  }

  /** The only protocol that the tokens name. */
  predicate NamesOnly(ts: seq<Token>, protocol: seq<byte>) {
    forall i :: 0 <= i < |ts| && Names(ts[i]) ==> ts[i].name == protocol
  }

  lemma {:induction false} LastNameOf(ts: seq<Token>) returns (i: nat)
    requires LastName(ts).Some?
    ensures i < |ts| && Names(ts[i]) && LastName(ts) == Some(ts[i].name)
    decreases |ts|
  {
    hide Names;
    i := |ts| - 1;
    if !Names(ts[i]) {
      i := LastNameOf(ts[..i]);
    }
  }

  lemma {:induction false} ReportedPrefix(os: seq<Output>, k: nat)
    requires k <= |os|
    ensures Reported(os[..k]) <= Reported(os)
    decreases |os|
  {
    if k == |os| {
      assert os[..k] == os;
    } else {
      var n := |os| - 1;
      ReportedPrefix(os[..n], k);
      assert os[..n][..k] == os[..k];
    }
  }

  lemma SameTokens(
    utf8: seq<byte> -> bool, fs: seq<seq<byte>>, ts: seq<Token>, ts': seq<Token>, failed: Option<seq<byte>>)
    requires Spells(utf8, fs, ts) && Tells(utf8, fs, ts', failed)
    ensures ts' == ts && failed.None?
  {
    hide Next;
    assert forall i :: 0 <= i < |fs| ==> IsToken(utf8, fs[i], ts[i]);
  }

  /** A run that consumed the tokens `ts` returned exactly these, and handed everything to the
      protocol they name. */
  lemma OutputsOf(
    utf8: seq<byte> -> bool, d: bool, chunks: seq<Event>, fs: seq<seq<byte>>, ts: seq<Token>, protocol: seq<byte>)
    requires Tokens(Items(utf8, Fresh(), d, chunks)) == fs && Spells(utf8, fs, ts) && NamesOnly(ts, protocol)
    ensures var os := Outputs(utf8, Fresh(), d, chunks);
            && Handed(os) == Up(Items(utf8, Fresh(), d, chunks))
            && Reported(os) == ts && Failed(os).None? && Under(os, protocol)
  {
    hide Next, Items, Tokens, Up, After, Outputs, Handed, Reported, Failed, Names, LastName;
    var os := Outputs(utf8, Fresh(), d, chunks);
    OutputsAreItems(utf8, d, chunks);
    SameTokens(utf8, fs, ts, Reported(os), Failed(os));
    forall k | 0 <= k < |os| && os[k].agreed.Some?
      ensures os[k].agreed.value.0 == protocol
    {
      var i := LastNameOf(Reported(os[..k]));
      ReportedPrefix(os, k);
    }
  }

  /** Plain negotiation: after the greeting and a protocol name, exactly the bytes that follow
      reach the protocol if a chunk comes behind the name; bytes glued to the name wait for it. */
  lemma PayloadReachesProtocol(
    utf8: seq<byte> -> bool, d: bool, chunks: seq<Event>,
    hello: seq<byte>, name: seq<byte>, greeting: seq<byte>, protocol: seq<byte>, payload: seq<byte>)
    requires AllIn(d, chunks) && Stream(d, chunks) == Flatten([hello, name]) + payload
    requires IsToken(utf8, hello, Text(greeting)) && MULTISTREAM <= greeting
    requires IsToken(utf8, name, Text(protocol)) && Settles(protocol)
    ensures var c := After(utf8, Fresh(), chunks);
            var os := Outputs(utf8, Fresh(), d, chunks);
            && !c.error && c.Of(d).done == Some(protocol)
            && Tokens(Items(utf8, Fresh(), d, chunks)) == [hello, name]
            && Reported(os) == [Text(greeting), Text(protocol)] && Failed(os).None? && Under(os, protocol)
            && (Handed(os) == payload && c.Of(d).acc == [] <==> payload == [] || Behind(chunks, |payload|))
            && (!Behind(chunks, |payload|) ==> Handed(os) == [] && c.Of(d).acc == payload)
  {
    hide Next, Drain, After, Items, Tokens, Up, Stream, Outputs, Reported, Handed, Failed;
    ExchangeTwo(Fresh().Of(d), Fresh().Of(!d), Text(greeting), Text(protocol));
    Turn(utf8, Fresh(), d, chunks, [hello, name], [Text(greeting), Text(protocol)], payload);
    OutputsOf(utf8, d, chunks, [hello, name], [Text(greeting), Text(protocol)], protocol);
  }

  /** Payload glued to the name in the only chunk: nothing reaches the protocol. */
  lemma GluedPayloadWaits(
    utf8: seq<byte> -> bool, d: bool, s: seq<byte>,
    hello: seq<byte>, name: seq<byte>, greeting: seq<byte>, protocol: seq<byte>, payload: seq<byte>)
    requires s == Flatten([hello, name]) + payload && payload != []
    requires IsToken(utf8, hello, Text(greeting)) && MULTISTREAM <= greeting
    requires IsToken(utf8, name, Text(protocol)) && Settles(protocol)
    ensures var c := After(utf8, Fresh(), [(d, s)]);
            && Handed(Outputs(utf8, Fresh(), d, [(d, s)])) == [] && c.Of(d) == Side(payload, false, Some(protocol))
    ensures forall more :: Handed(Outputs(utf8, Fresh(), d, [(d, s), (d, more)])) == payload + more
  {
    hide Next, Drain, After, Items, Tokens, Up, Outputs, Handed, Reported, Failed;
    ExchangeTwo(Fresh().Of(d), Fresh().Of(!d), Text(greeting), Text(protocol));
    var ts := [Text(greeting), Text(protocol)];
    assert [(d, s)][1..] == [];
    assert Stream(d, [(d, s)]) == s;
    assert |s| > |payload| by {
      assert Flatten([hello, name]) == hello + Flatten([hello, name][1..]);
      TokenNotEmpty(utf8, hello, Text(greeting));
    }
    Turn(utf8, Fresh(), d, [(d, s)], [hello, name], ts, payload);
    OutputsOf(utf8, d, [(d, s)], [hello, name], ts, protocol);
    forall more: seq<byte>
      ensures Handed(Outputs(utf8, Fresh(), d, [(d, s), (d, more)])) == payload + more
    {
      var chunks := [(d, s), (d, more)];
      assert chunks[1..] == [(d, more)] && [(d, more)][1..] == [];
      assert Stream(d, chunks) == s + (more + []);
      Associate(Flatten([hello, name]), payload, more);
      Turn(utf8, Fresh(), d, chunks, [hello, name], ts, payload + more);
      OutputsOf(utf8, d, chunks, [hello, name], ts, protocol);
    }
  }

  /** A refused proposal: naming a protocol settles on it, the other side's `na` takes that back,
      and the next name settles again. What follows it is handed over, to that protocol, exactly if
      a chunk comes behind it. */
  lemma RefusedThenAgreed(
    utf8: seq<byte> -> bool, d: bool, words: seq<seq<byte>>, answer: seq<seq<byte>>, next: seq<byte>,
    ts: seq<Token>, us: seq<Token>, protocol: seq<byte>, t1: seq<Event>, t2: seq<Event>, t3: seq<Event>,
    payload: seq<byte>)
    requires |ts| == 2 && ts[0].Text? && MULTISTREAM <= ts[0].name && Names(ts[1]) && Spells(utf8, words, ts)
    requires |us| == 2 && us[0].Text? && MULTISTREAM <= us[0].name && us[1] == Text(NA) && Spells(utf8, answer, us)
    requires IsToken(utf8, next, Text(protocol)) && Settles(protocol)
    requires AllIn(d, t1) && Stream(d, t1) == Flatten(words) + []
    requires AllIn(!d, t2) && Stream(!d, t2) == Flatten(answer) + []
    requires AllIn(d, t3) && Stream(d, t3) == Flatten([next]) + payload
    ensures After(utf8, Fresh(), t1).Of(d).done == Some(ts[1].name)
    ensures After(utf8, Fresh(), t1 + t2).Of(d).done == None
    ensures var all := t1 + t2 + t3;
            var up := Behind(t3, |payload|);
            var os := Outputs(utf8, Fresh(), d, all);
            && After(utf8, Fresh(), all).Of(d) == Side(if up then [] else payload, false, Some(protocol))
            && !After(utf8, Fresh(), all).error
            && Handed(os) == (if up then payload else []) && Reported(os) == ts + [Text(protocol)] && Failed(os).None?
  {
    hide Next, React, Drain, After, Items, Tokens, Up, Stream, IsToken, Exchange, SettlesLast, Outputs, Handed,
      Reported, Failed, Behind;
    Proposes(utf8, d, words, ts, t1);
    Refuses(utf8, d, answer, us, ts[1].name, t1, t2);
    var c2 := Joined(d, Side([], false, None), Side([], false, None), false);
    NameSettles(c2.Of(d), c2.Of(!d), protocol);
    ExchangeOne(c2.Of(d), c2.Of(!d), Text(protocol));
    assert Spells(utf8, [next], [Text(protocol)]);
    Turn(utf8, c2, d, t3, [next], [Text(protocol)], payload);
    RunAppend(utf8, Fresh(), d, t1 + t2, t3);
    var all := t1 + t2 + t3;
    var i2, i3 := Items(utf8, Fresh(), d, t1 + t2), Items(utf8, c2, d, t3);
    TokensAppend(i2, i3);
    UpAppend(i2, i3);
    RefusedOutputs(utf8, d, all, words, ts, next, protocol);
  }

  lemma RefusedOutputs(
    utf8: seq<byte> -> bool, d: bool, all: seq<Event>, words: seq<seq<byte>>, ts: seq<Token>, next: seq<byte>,
    protocol: seq<byte>)
    requires Spells(utf8, words, ts) && IsToken(utf8, next, Text(protocol))
    requires Tokens(Items(utf8, Fresh(), d, all)) == words + [next]
    ensures var os := Outputs(utf8, Fresh(), d, all);
            && Handed(os) == Up(Items(utf8, Fresh(), d, all))
            && Reported(os) == ts + [Text(protocol)] && Failed(os).None?
  {
    hide Next, Items, Tokens, Up, Outputs, Handed, Reported, Failed, IsToken;
    OutputsAreItems(utf8, d, all);
    var os := Outputs(utf8, Fresh(), d, all);
    SameTokens(utf8, words + [next], ts + [Text(protocol)], Reported(os), Failed(os));
  }

  /** A first proposal. */
  lemma Proposes(utf8: seq<byte> -> bool, d: bool, words: seq<seq<byte>>, ts: seq<Token>, t1: seq<Event>)
    requires |ts| == 2 && ts[0].Text? && MULTISTREAM <= ts[0].name && Names(ts[1]) && Spells(utf8, words, ts)
    requires AllIn(d, t1) && Stream(d, t1) == Flatten(words) + []
    ensures After(utf8, Fresh(), t1) == Joined(d, Side([], false, Some(ts[1].name)), Side([], false, None), false)
    ensures Tokens(Items(utf8, Fresh(), d, t1)) == words && Up(Items(utf8, Fresh(), d, t1)) == []
  {
    hide Next, Drain, After, Items, Tokens, Up, Stream, IsToken, Behind;
    assert ts == [ts[0], ts[1]];
    ExchangeTwo(Fresh().Of(d), Fresh().Of(!d), ts[0], ts[1]);
    hide Exchange, SettlesLast, Spells;
    Turn(utf8, Fresh(), d, t1, words, ts, []);
  }

  /** And its refusal. */
  lemma Refuses(
    utf8: seq<byte> -> bool, d: bool, answer: seq<seq<byte>>, us: seq<Token>, name: seq<byte>,
    t1: seq<Event>, t2: seq<Event>)
    requires |us| == 2 && us[0].Text? && MULTISTREAM <= us[0].name && us[1] == Text(NA) && Spells(utf8, answer, us)
    requires AllIn(!d, t2) && Stream(!d, t2) == Flatten(answer) + []
    requires After(utf8, Fresh(), t1) == Joined(d, Side([], false, Some(name)), Side([], false, None), false)
    ensures After(utf8, Fresh(), t1 + t2) == Joined(d, Side([], false, None), Side([], false, None), false)
    ensures Items(utf8, Fresh(), d, t1 + t2) == Items(utf8, Fresh(), d, t1)
  {
    hide Next, Drain, After, Items, Tokens, Up, Stream, IsToken, Behind;
    var c1 := After(utf8, Fresh(), t1);
    Reserved(NA);
    assert us == [us[0], us[1]];
    ExchangeTwo(c1.Of(!d), c1.Of(d), us[0], us[1]);
    hide Exchange, SettlesLast, Spells;
    Turn(utf8, c1, !d, t2, answer, us, []);
    RunAppend(utf8, Fresh(), d, t1, t2);
    OtherItems(utf8, c1, d, t2);
  }

  lemma NameSettles(a: Side, b: Side, protocol: seq<byte>)
    requires Settles(protocol) && !a.simultaneous
    ensures React(a, b, Text(protocol)) == (a.(done := Some(protocol)), b)
  {
  }

  lemma TokenNotEmpty(utf8: seq<byte> -> bool, f: seq<byte>, t: Token)
    requires IsToken(utf8, f, t)
    ensures f != []
  {
  }

  /** A line as a peer writes it: length, text, newline. */
  function Line(text: seq<byte>): seq<byte> {
    Varint.Encode(|text| + 1) + (text + [NEWLINE])
  }

  /** A text that a line can carry: it is not empty, does not end in a newline and is neither
      role. */
  predicate Plain(utf8: seq<byte> -> bool, text: seq<byte>) {
    && text != [] && text[|text| - 1] != NEWLINE && utf8(text + [NEWLINE]) && |Line(text)| < U64
    && text != INITIATOR[1..10] && text != RESPONDER[1..10]
  }

  lemma OnlyRoles(text: seq<byte>, role: seq<byte>)
    requires |role| == 11 && role[0] == 10
    ensures role <= Line(text) ==> text == role[1..10]
  {
    var s := Line(text);
    if role <= s {
      assert s[0] == role[0];
      assert |text| + 1 == 10 && Varint.Encode(10) == [10];
      assert s[1..10] == text;
      assert s[1..10] == role[1..10];
    }
  }

  /** A line is the token of its text. */
  lemma LineIsToken(utf8: seq<byte> -> bool, text: seq<byte>)
    requires Plain(utf8, text)
    ensures IsToken(utf8, Line(text), Text(text))
  {
    hide Varint.Encode;
    var s, body := Line(text), text + [NEWLINE];
    Varint.RoundTrip(|text| + 1, body);
    OnlyRoles(text, INITIATOR);
    OnlyRoles(text, RESPONDER);
    assert Size(s) == Some(|s|) && Content(s) == body;
    assert body[..|body| - 1] == text;
    assert Trim(body) == Trim(text) == text;
  }

  /** A reserved word is none of the others. */
  lemma Reserved(s: seq<byte>)
    ensures SIMULTANEOUS <= s ==> !(MULTISTREAM <= s)
    ensures SELECT <= s ==> !(MULTISTREAM <= s) && !(SIMULTANEOUS <= s) && s != NA
    ensures s == NA ==> !(MULTISTREAM <= s) && !(SIMULTANEOUS <= s)
  {
    assert SIMULTANEOUS[1] == 108 && MULTISTREAM[1] == 109;
    assert SELECT[0] == 115 && SIMULTANEOUS[0] == 47 && MULTISTREAM[0] == 47 && NA[0] == 110;
  }

  lemma RoleTokens(utf8: seq<byte> -> bool)
    ensures IsToken(utf8, INITIATOR, InitiatorToken) && IsToken(utf8, RESPONDER, ResponderToken)
  {
    assert INITIATOR[1] == 105 && RESPONDER[1] == 114;
  }

  /** A token that is cut off is not taken. */
  lemma CutToken(utf8: seq<byte> -> bool, f: seq<byte>, t: Token, s: seq<byte>, rest: seq<byte>)
    requires IsToken(utf8, f, t) && |s| < |f| && f == s + rest
    ensures Next(utf8, s).None?
  {
    hide Next;
    if Next(utf8, s).Some? {
      NextStable(utf8, s, rest);
    }
  }
}

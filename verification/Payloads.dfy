/** The assumption on event-stream payloads can be met: an encoding of all of them, and its decoding.
    Every payload is written as a sequence of numbers, and those in unary. */
module Payloads {
  import opened Options
  import opened Json
  import opened Strings
  import opened SseStream

  // ---- Numbers as text ---------------------------------------------------------------------

  function Ones(n: nat): (r: string)
    ensures |r| == n && forall i | 0 <= i < n :: r[i] == '1'
  {
    seq(n, _ => '1')
  }

  function Unary(ns: seq<nat>): string {
    if ns == [] then "" else Ones(ns[0]) + "0" + Unary(ns[1..])
  }

  lemma {:induction false} FirstZero(m: nat, x: string, n: nat, y: string)
    requires Ones(m) + "0" + x == Ones(n) + "0" + y
    ensures m == n && x == y
  {
    var s, t := Ones(m) + "0" + x, Ones(n) + "0" + y;
    assert s[m] == '0' && forall i | 0 <= i < m :: s[i] == '1';
    assert t[n] == '0' && forall i | 0 <= i < n :: t[i] == '1';
    assert s[m + 1..] == x && t[n + 1..] == y;
  }

  lemma {:induction false} UnaryIsInjective(a: seq<nat>, b: seq<nat>)
    requires Unary(a) == Unary(b)
    ensures a == b
  {
    if a != [] && b != [] {
      FirstZero(a[0], Unary(a[1..]), b[0], Unary(b[1..]));
      UnaryIsInjective(a[1..], b[1..]);
      assert a == [a[0]] + a[1..] && b == [b[0]] + b[1..];
    }
  }

  lemma {:induction false} UnaryDigits(ns: seq<nat>)
    ensures forall i | 0 <= i < |Unary(ns)| :: Unary(ns)[i] in "01"
  {
    if ns != [] {
      UnaryDigits(ns[1..]);
    }
  }

  lemma {:induction false} UnaryIsPayload(ns: seq<nat>)
    requires ns != []
    ensures Payload(Unary(ns))
  {
    UnaryDigits(ns);
    var s := Unary(ns);
    assert s[|s| - 1] in "01";
  }

  function Codes(s: string): (r: seq<nat>)
    ensures |r| == |s| && forall i | 0 <= i < |s| :: r[i] == s[i] as nat
  {
    seq(|s|, i requires 0 <= i < |s| => s[i] as nat)
  }

  lemma {:induction false} CodesAreInjective(s: string, t: string)
    requires Codes(s) == Codes(t)
    ensures s == t
  {
    forall i | 0 <= i < |s| ensures s[i] == t[i] {
      assert Codes(s)[i] == Codes(t)[i];
    }
  }

  // ---- Payloads as numbers -----------------------------------------------------------------

  function OfOption(n: Option<nat>): nat {
    if n.Some? then n.value + 1 else 0
  }

  function OfStart(u: StartUsage): seq<nat> {
    [u.input, OfOption(u.cacheRead), OfOption(u.cacheCreation)]
  }

  function OfBlock(b: (nat, BlockStart)): seq<nat> {
    [b.0] + match b.1
            case ToolStart(id, name) => [|id|] + (Codes(id) + Codes(name))
            case OtherStart => []
  }

  function OfDelta(d: (nat, Delta)): seq<nat> {
    [d.0] + match d.1
            case TextPiece(text) => [0] + Codes(text)
            case InputPiece(json) => [1] + Codes(json)
            case OtherDelta => []
  }

  function OfStop(i: nat): seq<nat> { [i] }

  function OfEnd(e: (nat, Option<string>)): seq<nat> {
    [e.0] + if e.1.Some? then [0] + Codes(e.1.value) else []
  }

  lemma {:induction false} Tagged(x: nat, s: seq<nat>, y: nat, t: seq<nat>)
    requires [x] + s == [y] + t
    ensures x == y && s == t
  {
    assert ([x] + s)[0] == x && ([y] + t)[0] == y;
    assert ([x] + s)[1..] == s && ([y] + t)[1..] == t;
  }

  lemma {:induction false} TwoTexts(id: string, name: string, id2: string, name2: string)
    requires [|id|] + (Codes(id) + Codes(name)) == [|id2|] + (Codes(id2) + Codes(name2))
    ensures id == id2 && name == name2
  {
    var s, t := Codes(id) + Codes(name), Codes(id2) + Codes(name2);
    Tagged(|id|, s, |id2|, t);
    assert s[..|id|] == Codes(id) && t[..|id|] == Codes(id2);
    assert s[|id|..] == Codes(name) && t[|id|..] == Codes(name2);
    CodesAreInjective(id, id2);
    CodesAreInjective(name, name2);
  }

  lemma {:induction false} TaggedText(x: nat, s: string, y: nat, t: string)
    requires [x] + Codes(s) == [y] + Codes(t)
    ensures x == y && s == t
  {
    Tagged(x, Codes(s), y, Codes(t));
    CodesAreInjective(s, t);
  }

  lemma {:induction false} StartsDiffer(a: StartUsage, b: StartUsage)
    requires OfStart(a) == OfStart(b)
    ensures a == b
  {
    assert OfStart(a)[0] == OfStart(b)[0] && OfStart(a)[1] == OfStart(b)[1] && OfStart(a)[2] == OfStart(b)[2];
  }

  lemma {:induction false} BlocksDiffer(a: (nat, BlockStart), b: (nat, BlockStart))
    requires OfBlock(a) == OfBlock(b)
    ensures a == b
  {
    Tagged(a.0, OfBlock(a)[1..], b.0, OfBlock(b)[1..]);
    if a.1.ToolStart? && b.1.ToolStart? {
      TwoTexts(a.1.id, a.1.name, b.1.id, b.1.name);
    }
  }

  lemma {:induction false} DeltasDiffer(a: (nat, Delta), b: (nat, Delta))
    requires OfDelta(a) == OfDelta(b)
    ensures a == b
  {
    Tagged(a.0, OfDelta(a)[1..], b.0, OfDelta(b)[1..]);
    if !a.1.OtherDelta? && !b.1.OtherDelta? {
      var s := if a.1.TextPiece? then a.1.text else a.1.json;
      var t := if b.1.TextPiece? then b.1.text else b.1.json;
      TaggedText(if a.1.TextPiece? then 0 else 1, s, if b.1.TextPiece? then 0 else 1, t);
    }
  }

  lemma {:induction false} EndsDiffer(a: (nat, Option<string>), b: (nat, Option<string>))
    requires OfEnd(a) == OfEnd(b)
    ensures a == b
  {
    Tagged(a.0, OfEnd(a)[1..], b.0, OfEnd(b)[1..]);
    if a.1.Some? && b.1.Some? {
      TaggedText(0, a.1.value, 0, b.1.value);
    }
  }

  // ---- The encoding and its decoding -------------------------------------------------------

  ghost predicate Injective<A(!new)>(numbers: A -> seq<nat>) {
    forall a, b :: numbers(a) == numbers(b) ==> a == b
  }

  ghost function Decode<A(!new)>(numbers: A -> seq<nat>, text: string): Option<A> {
    if exists a :: Unary(numbers(a)) == text then
      var a :| Unary(numbers(a)) == text;
      Some(a)
    else None
  }

  lemma {:induction false} Decodes<A(!new)>(numbers: A -> seq<nat>, a: A)
    requires Injective(numbers) && numbers(a) != []
    ensures Payload(Unary(numbers(a))) && Decode(numbers, Unary(numbers(a))) == Some(a)
  {
    UnaryIsPayload(numbers(a));
    var b := Decode(numbers, Unary(numbers(a))).value;
    UnaryIsInjective(numbers(a), numbers(b));
  }

  function Encoding(): Encoder {
    Encoder(u => Unary(OfStart(u)), (i: nat, b: BlockStart) => Unary(OfBlock((i, b))),
            (i: nat, d: Delta) => Unary(OfDelta((i, d))), (i: nat) => Unary(OfStop(i)),
            (n: nat, r: Option<string>) => Unary(OfEnd((n, r))), "0")
  }

  ghost function Decoding(value: string -> Option<Json>): Wire {
    Wire(text => Decode(OfStart, text), text => Decode(OfBlock, text), text => Decode(OfDelta, text),
         text => Decode(OfStop, text), text => Decode(OfEnd, text), value)
  }

  lemma {:induction false} AllInjective()
    ensures Injective(OfStart) && Injective(OfBlock) && Injective(OfDelta) && Injective(OfStop) && Injective(OfEnd)
  {
    forall a, b | OfStart(a) == OfStart(b) ensures a == b { StartsDiffer(a, b); }
    forall a, b | OfBlock(a) == OfBlock(b) ensures a == b { BlocksDiffer(a, b); }
    forall a, b | OfDelta(a) == OfDelta(b) ensures a == b { DeltasDiffer(a, b); }
    forall a, b | OfStop(a) == OfStop(b) ensures a == b { assert OfStop(a)[0] == OfStop(b)[0]; }
    forall a, b | OfEnd(a) == OfEnd(b) ensures a == b { EndsDiffer(a, b); }
  }

  /** Whatever JSON decoding does with the input of a tool call, some encoding of the payloads is
      decoded as `StreamAgreesWithOneShot` assumes. */
  lemma {:induction false} AnyPayloadsCanBeSent(value: string -> Option<Json>)
    ensures Inverse(Decoding(value), Encoding()) && Decoding(value).value == value
  {
    AllInjective();
    forall u ensures Payload(Unary(OfStart(u))) && Decode(OfStart, Unary(OfStart(u))) == Some(u) {
      Decodes(OfStart, u);
    }
    forall i: nat, b: BlockStart
      ensures Payload(Unary(OfBlock((i, b)))) && Decode(OfBlock, Unary(OfBlock((i, b)))) == Some((i, b))
    {
      Decodes(OfBlock, (i, b));
    }
    forall i: nat, d: Delta
      ensures Payload(Unary(OfDelta((i, d)))) && Decode(OfDelta, Unary(OfDelta((i, d)))) == Some((i, d))
    {
      Decodes(OfDelta, (i, d));
    }
    forall i: nat ensures Payload(Unary(OfStop(i))) && Decode(OfStop, Unary(OfStop(i))) == Some(i) {
      Decodes(OfStop, i);
    }
    forall n: nat, r: Option<string>
      ensures Payload(Unary(OfEnd((n, r)))) && Decode(OfEnd, Unary(OfEnd((n, r)))) == Some((n, r))
    {
      Decodes(OfEnd, (n, r));
    }
  }
}

/** Push-buffer words: how the queue writes methods into a command buffer, how the host engine
    splits the words into methods again, and that the two agree for every sequence of methods. */
module PushBuffer {
  import opened Bits
  import opened Commands
  import opened Stream

  datatype Parsed = Malformed | Methods(methods: seq<Method>)

  /** What the header and argument fields can hold. */
  predicate InRange(m: Method) {
    && m.subchannel < 8 && m.address < 0x4000 && m.address % 4 == 0 && |m.args| < 0x1000
    && forall i | 0 <= i < |m.args| :: m.args[i] < U32
  }

  /** makeNvMethod. */
  function MakeNvMethod(subcommand: nat, address: nat, size: nat, typ: nat): nat {
    Or(Or(Or(typ * 0x1000_0000, size * 0x1_0000), subcommand * 0x2000), address / 4)
  }

  function Header(m: Method): nat {
    MakeNvMethod(m.subchannel, m.address, |m.args|, 2)
  }

  function Encode(m: Method): seq<nat> {
    [Header(m)] + m.args
  }

  function EncodeAll(ms: seq<Method>): seq<nat> {
    if ms == [] then [] else Encode(ms[0]) + EncodeAll(ms[1..])
  }

  // ------------------------------------------- the incrementing-method format

  function HeaderOpcode(w: nat): nat { w / 0x2000_0000 }
  function HeaderCount(w: nat): nat { w / 0x1_0000 % 0x2000 }
  function HeaderSubchannel(w: nat): nat { w / 0x2000 % 8 }
  function HeaderAddress(w: nat): nat { w % 0x1000 * 4 }

  /** The host engine's reading of a push buffer that holds incrementing methods only. */
  function Parse(ws: seq<nat>): Parsed {
    if ws == [] then Methods([])
    else if HeaderOpcode(ws[0]) != 1 || HeaderCount(ws[0]) >= |ws| then Malformed
    else
      var n := HeaderCount(ws[0]) + 1;
      match Parse(ws[n..])
      case Malformed => Malformed
      case Methods(rest) =>
        Methods([Method(HeaderSubchannel(ws[0]), HeaderAddress(ws[0]), ws[1..n])] + rest)
  }

  /** Methods read before whatever the rest is read as. */
  function Joined(ms: seq<Method>, p: Parsed): Parsed {
    match p
    case Malformed => Malformed
    case Methods(more) => Methods(ms + more)
  }

  lemma HeaderSum(m: Method)
    requires InRange(m)
    ensures Header(m) == 0x2000_0000 + |m.args| * 0x1_0000 + m.subchannel * 0x2000 + m.address / 4
  {
    hide Or, Pow2;
    Pow2Values();
    OrDisjoint(2, |m.args| * 0x1_0000, 28);
    OrDisjoint(0x2000 + |m.args|, m.subchannel * 0x2000, 16);
    OrDisjoint((0x2000 + |m.args|) * 8 + m.subchannel, m.address / 4, 13);
  }

  /** Every field of a header reads back. */
  lemma HeaderFields(m: Method)
    requires InRange(m)
    ensures HeaderOpcode(Header(m)) == 1 && HeaderCount(Header(m)) == |m.args|
    ensures HeaderSubchannel(Header(m)) == m.subchannel && HeaderAddress(Header(m)) == m.address
    ensures Header(m) < U32 && Header(m) / 0x1_0000 % 0x1000 == |m.args|
  {
    hide Header;
    HeaderSum(m);
    var w, n, low := Header(m), |m.args|, m.subchannel * 0x2000 + m.address / 4;
    assert low < 0x1_0000 && w == (0x2000 + n) * 0x1_0000 + low;
    DivMod(0x2000 + n, low, 0x1_0000);
    assert w / 0x1_0000 == 0x2000 + n;
    DivMod(1, n * 0x1_0000 + low, 0x2000_0000);
    DivMod(0x1_0000 + n * 8 + m.subchannel, m.address / 4, 0x2000);
    assert w / 0x2000 == 0x1_0000 + n * 8 + m.subchannel;
    DivMod(0x2_0000 + n * 16 + m.subchannel * 2, m.address / 4, 0x1000);
  }

  /** The words of any sequence of methods are split back into exactly those methods, whatever
      methods follow them. */
  lemma {:induction false} ParseAfter(ms: seq<Method>, rest: seq<nat>)
    requires forall i | 0 <= i < |ms| :: InRange(ms[i])
    ensures Parse(EncodeAll(ms) + rest) == Joined(ms, Parse(rest))
  {
    hide Encode, InRange, Parse;
    if ms == [] {
      assert EncodeAll(ms) + rest == rest;
      if Parse(rest).Methods? { assert ms + Parse(rest).methods == Parse(rest).methods; }
    } else {
      var tail := EncodeAll(ms[1..]) + rest;
      assert EncodeAll(ms) + rest == Encode(ms[0]) + tail;
      ParseFirst(ms[0], tail);
      ParseAfter(ms[1..], rest);
      if Parse(rest).Methods? {
        assert [ms[0]] + (ms[1..] + Parse(rest).methods) == ms + Parse(rest).methods;
      }
    }
  }

  lemma ParseFirst(m: Method, rest: seq<nat>)
    requires InRange(m)
    ensures Parse(Encode(m) + rest) == Joined([m], Parse(rest))
  {
    hide Header, HeaderOpcode, HeaderCount, HeaderSubchannel, HeaderAddress;
    HeaderFields(m);
    var ws := Encode(m) + rest;
    var n := |m.args| + 1;
    assert ws[0] == Header(m) && ws[n..] == rest && ws[1..n] == m.args;
  }

  lemma RoundTrip(ms: seq<Method>)
    requires forall i | 0 <= i < |ms| :: InRange(ms[i])
    ensures Parse(EncodeAll(ms)) == Methods(ms)
  {
    assert EncodeAll(ms) + [] == EncodeAll(ms) && ms + [] == ms;
    ParseAfter(ms, []);
  }

  /** A well-formed buffer keeps its reading when anything is appended to it. */
  lemma {:induction false} ParseConcat(ws: seq<nat>, rest: seq<nat>)
    requires Parse(ws).Methods?
    ensures Parse(ws + rest) == Joined(Parse(ws).methods, Parse(rest))
    decreases |ws|
  {
    hide HeaderOpcode, HeaderCount, Parse;
    if ws == [] {
      assert ws + rest == rest && Parse(ws).methods == [] by { assert Parse([]) == Methods([]) by { ParseEmpty(); } }
      if Parse(rest).Methods? { assert [] + Parse(rest).methods == Parse(rest).methods; }
    } else {
      var n := HeaderCount(ws[0]) + 1;
      ParseStep(ws);
      assert (ws + rest)[n..] == ws[n..] + rest && (ws + rest)[1..n] == ws[1..n] && (ws + rest)[0] == ws[0];
      ParseStep(ws + rest);
      ParseConcat(ws[n..], rest);
      JoinedAppend([FirstMethod(ws)], Parse(ws[n..]).methods, Parse(rest));
    }
  }

  lemma ParseEmpty()
    ensures Parse([]) == Methods([])
  {
  }

  function FirstMethod(ws: seq<nat>): Method
    requires ws != [] && HeaderCount(ws[0]) < |ws|
  {
    Method(HeaderSubchannel(ws[0]), HeaderAddress(ws[0]), ws[1..HeaderCount(ws[0]) + 1])
  }

  lemma ParseStep(ws: seq<nat>)
    requires ws != []
    ensures if HeaderOpcode(ws[0]) != 1 || HeaderCount(ws[0]) >= |ws| then Parse(ws) == Malformed
            else Parse(ws) == Joined([FirstMethod(ws)], Parse(ws[HeaderCount(ws[0]) + 1..]))
  {
    hide HeaderOpcode, HeaderCount, HeaderSubchannel, HeaderAddress;
  }

  lemma JoinedAppend(a: seq<Method>, b: seq<Method>, p: Parsed)
    ensures Joined(a, Joined(b, p)) == Joined(a + b, p)
  {
    if p.Methods? {
      assert a + (b + p.methods) == a + b + p.methods;
    }
  }

  /** The header that a refused enqueue leaves behind spoils the buffer unless it promises no words. */
  lemma StrayHeader(ws: seq<nat>, m: Method)
    requires Parse(ws).Methods? && InRange(m)
    ensures Parse(ws + [Header(m)]).Methods? <==> m.args == []
  {
    hide Header, HeaderOpcode, HeaderCount, HeaderSubchannel, HeaderAddress;
    ParseConcat(ws, [Header(m)]);
    HeaderFields(m);
    assert m.args == [] ==> [Header(m)][1..] == [] && Parse([Header(m)][1..]) == Methods([]);
  }

  lemma {:induction false} EncodeAppend(a: seq<Method>, b: seq<Method>)
    ensures EncodeAll(a + b) == EncodeAll(a) + EncodeAll(b)
  {
    if a == [] {
      assert a + b == b;
    } else {
      assert (a + b)[1..] == a[1..] + b;
      EncodeAppend(a[1..], b);
    }
  }
}

/** The attribute walk over a kernel's .nv.info section, which finds its parameters and their total
    size among attributes of other kinds. */
module KernelInfo {
  import opened Results
  import opened Bits
  import opened KernArgs

  const CBANK_PARAM_SIZE: nat := 0x1903
  const KPARAM_INFO: nat := 0x1704
  const S2RCTAID_INSTR_OFFSETS: nat := 0x1d04
  const EXIT_INSTR_OFFSETS: nat := 0x1c04
  const END_OF_ATTRIBUTES: nat := 0xffff_ffff

  /** Length in words of an attribute of a known kind, without a variable tail. */
  function WordLen(typ: nat): (r: Option<nat>)
    ensures r.Some? ==> r.value > 0 && typ != 0xffff && typ != EXIT_INSTR_OFFSETS
  {
    match typ
    case 0x3704 => Some(2)   // CUDA_API_VERSION
    case 0x1e04 => Some(2)   // CRS_STACK_SIZE
    case 0x0a04 => Some(3)   // PARAM_CBANK
    case 0x1903 => Some(1)   // CBANK_PARAM_SIZE
    case 0x1704 => Some(4)   // KPARAM_INFO
    case 0x1b03 => Some(1)   // MAXREG_COUNT
    case 0x2904 => Some(1)   // COOP_GROUP_MASK_REGIDS
    case 0x0f04 => Some(2)   // EXTERNS
    case 0x4604 => Some(2)   // SYSCALL_OFFSETS
    case 0x3501 => Some(1)   // SW2861232_WAR
    case 0x3001 => Some(1)   // SW2393858_WAR
    case 0x2a01 => Some(1)   // SW1850030_WAR
    case 0x1d04 => Some(1)   // S2RCTAID_INSTR_OFFSETS, followed by `other` bytes
    case 0x3604 => Some(2)   // SW_WAR
    case _ => None
  }

  /** What the walk has found; the sizes of the parameters are derived later. */
  datatype Info = Info(params: seq<ParamInfo>, total: nat)

  /** Outside: the walk would leave the section, or its word grid, before it ends. */
  datatype Walked = Done(info: Info) | Invalid | Outside

  function Length(typ: nat, other: nat): nat
    requires WordLen(typ).Some?
  {
    WordLen(typ).value + (if typ == S2RCTAID_INSTR_OFFSETS then other / 4 else 0)
  }

  function Noted(typ: nat, other: nat, third: nat, info: Info): Info {
    if typ == CBANK_PARAM_SIZE then info.(total := other)
    else if typ == KPARAM_INFO then info.(params := info.params + [ParamInfo(third % U16, third / U16, 0)])
    else info
  }

  function Walk(ws: seq<nat>, info: Info): Walked
    decreases |ws|
  {
    if ws == [] then Done(info)
    else
      var typ, other := ws[0] % U16, ws[0] / U16;
      if ws[0] == END_OF_ATTRIBUTES || typ == EXIT_INSTR_OFFSETS then Done(info)
      else if WordLen(typ) == None then Invalid
      else if typ == S2RCTAID_INSTR_OFFSETS && other % 4 != 0 then Outside
      else if Length(typ, other) > |ws| then Outside
      else Walk(ws[Length(typ, other)..], Noted(typ, other, if typ == KPARAM_INFO then ws[2] else 0, info))
  }

  lemma WalkStep(ws: seq<nat>, info: Info)
    requires ws != []
    ensures var typ, other := ws[0] % U16, ws[0] / U16;
            Walk(ws, info) ==
            if ws[0] == END_OF_ATTRIBUTES || typ == EXIT_INSTR_OFFSETS then Done(info)
            else if WordLen(typ) == None then Invalid
            else if typ == S2RCTAID_INSTR_OFFSETS && other % 4 != 0 then Outside
            else if Length(typ, other) > |ws| then Outside
            else Walk(ws[Length(typ, other)..], Noted(typ, other, if typ == KPARAM_INFO then ws[2] else 0, info))
  {
  }

  /** The loop over one section. */
  method WalkSection(data: seq<nat>) returns (st: Status, params: seq<ParamInfo>, total: nat)
    requires Walk(data, Info([], 0)) != Outside
    ensures st == (if Walk(data, Info([], 0)).Done? then Success else InvalidImage)
    ensures st == Success ==> Walk(data, Info([], 0)) == Done(Info(params, total))
    ensures forall items, tail | ItemsOk(items) && Ends(tail) && data == AllWords(items) + tail ::
              st == Success && params == Parameters(items) && total == LastTotal(items, 0)
  {
    hide ItemsOk, Ends, AllWords, Parameters, LastTotal;
    WalkFindsAll(data);
    hide Walk;
    params, total := [], 0;
    var off := 0;
    while off < |data|
      invariant off <= |data| && Walk(data[off..], Info(params, total)) == Walk(data, Info([], 0))
      decreases |data| - off
    {
      var key := data[off];
      var typ, other := key % U16, key / U16;
      assert data[off..][0] == key;
      WalkStep(data[off..], Info(params, total));
      if key == END_OF_ATTRIBUTES || typ == EXIT_INSTR_OFFSETS {
        return Success, params, total;
      }
      if WordLen(typ) == None {
        return InvalidImage, params, total;
      }
      var len := Length(typ, other);
      assert data[off..][len..] == data[off + len..];
      if typ == CBANK_PARAM_SIZE {
        total := other;
      } else if typ == KPARAM_INFO {
        assert data[off..][2] == data[off + 2];
        params := params + [ParamInfo(data[off + 2] % U16, data[off + 2] / U16, 0)];
      }
      off := off + len;
    }
    WalkEnds(data[off..], Info(params, total));
    st := Success;
  }

  // -------------------------------------------------------- attribute lists

  /** One attribute: kind, the upper half of its first word, and its other words. */
  datatype Attribute = Attribute(typ: nat, other: nat, rest: seq<nat>) {
    predicate Ok() {
      && other < U16 && WordLen(typ).Some? && 1 + |rest| == Length(typ, other)
      && (typ == S2RCTAID_INSTR_OFFSETS ==> other % 4 == 0)
    }

    /** Its third word, which for a parameter holds index and offset. */
    function Third(): nat {
      if typ == KPARAM_INFO && |rest| > 1 then rest[1] else 0
    }

    function Encode(): seq<nat> {
      [typ + U16 * other] + rest
    }
  }

  function EncodeList(attributes: seq<Attribute>): seq<nat> {
    if attributes == [] then [] else attributes[0].Encode() + EncodeList(attributes[1..])
  }

  /** The parameters and the last total among the attributes. */
  function Gather(attributes: seq<Attribute>, info: Info): Info
    requires forall i | 0 <= i < |attributes| :: attributes[i].Ok()
    decreases |attributes|
  {
    if attributes == [] then info
    else
      var a := attributes[0];
      Gather(attributes[1..], Noted(a.typ, a.other, a.Third(), info))
  }

  predicate Ends(tail: seq<nat>) {
    tail == [] || tail[0] == 0xffff_ffff || tail[0] % 0x1_0000 == 0x1c04
  }

  /** From any list of known attributes, ended by the section, by the end marker or by the exit
      offsets, the walk gathers exactly their parameters and total, whatever lies between them. */
  lemma {:induction false} WalkGathers(attributes: seq<Attribute>, tail: seq<nat>, info: Info)
    requires (forall i | 0 <= i < |attributes| :: attributes[i].Ok()) && Ends(tail)
    ensures Walk(EncodeList(attributes) + tail, info) == Done(Gather(attributes, info))
    decreases |attributes|
  {
    hide WordLen, Walk, Noted;
    if attributes == [] {
      WalkEnds(tail, info);
      assert EncodeList(attributes) + tail == tail;
    } else {
      var a := attributes[0];
      var rest := EncodeList(attributes[1..]) + tail;
      var next := Noted(a.typ, a.other, a.Third(), info);
      assert EncodeList(attributes) + tail == a.Encode() + rest;
      WalkOne(a, rest, info, next);
      WalkGathers(attributes[1..], tail, next);
    }
  }

  lemma WalkEnds(tail: seq<nat>, info: Info)
    requires Ends(tail)
    ensures Walk(tail, info) == Done(info)
  {
  }

  lemma WalkOne(a: Attribute, rest: seq<nat>, info: Info, next: Info)
    requires a.Ok() && next == Noted(a.typ, a.other, a.Third(), info)
    ensures Walk(a.Encode() + rest, info) == Walk(rest, next)
  {
    var ws := a.Encode() + rest;
    assert a.typ < 0xffff;
    DivMod(a.other, a.typ, U16);
    assert ws[0] % U16 == a.typ && ws[0] / U16 == a.other;
    assert ws[Length(a.typ, a.other)..] == rest;
    assert a.typ == KPARAM_INFO ==> ws[2] == a.rest[1];
  }

  // ------------------------------------------------- sections of a known content

  /** What a section says, one item per attribute: a parameter with its index and offset, the total size
      of the parameters, or something that the walk passes over. */
  datatype Item =
    | Parameter(index: nat, offset: nat, half: nat, second: nat, fourth: nat)
    | Total(size: nat)
    | Other(typ: nat, half: nat, tail: seq<nat>)
  {
    predicate Ok() {
      match this
      case Parameter(index, offset, half, _, _) => index < 0x1_0000 && offset < 0x1_0000 && half < 0x1_0000
      case Total(size) => size < 0x1_0000
      case Other(typ, half, tail) =>
        && half < 0x1_0000
        && match |tail|
           case 0 => typ in {0x1b03, 0x2904, 0x3501, 0x3001, 0x2a01} || (typ == 0x1d04 && half == 0)
           case 1 => typ in {0x3704, 0x1e04, 0x0f04, 0x4604, 0x3604} || (typ == 0x1d04 && half == 4)
           case 2 => typ == 0x0a04 || (typ == 0x1d04 && half == 8)
           case n => typ == 0x1d04 && half == 4 * n
    }

    function Words(): seq<nat> {
      match this
      case Parameter(index, offset, half, second, fourth) =>
        [0x1704 + 0x1_0000 * half, second, index + 0x1_0000 * offset, fourth]
      case Total(size) => [0x1903 + 0x1_0000 * size]
      case Other(typ, half, tail) => [typ + 0x1_0000 * half] + tail
    }
  }

  predicate ItemsOk(items: seq<Item>) {
    forall i | 0 <= i < |items| :: items[i].Ok()
  }

  function AllWords(items: seq<Item>): seq<nat> {
    if items == [] then [] else items[0].Words() + AllWords(items[1..])
  }

  /** The parameters, in order. */
  function Parameters(items: seq<Item>): seq<ParamInfo> {
    if items == [] then []
    else (if items[0].Parameter? then [ParamInfo(items[0].index, items[0].offset, 0)] else []) + Parameters(items[1..])
  }

  /** The last total, if there is one. */
  function LastTotal(items: seq<Item>, before: nat): nat {
    if items == [] then before
    else LastTotal(items[1..], if items[0].Total? then items[0].size else before)
  }

  function AsAttribute(item: Item): Attribute {
    match item
    case Parameter(index, offset, half, second, fourth) =>
      Attribute(KPARAM_INFO, half, [second, index + U16 * offset, fourth])
    case Total(size) => Attribute(CBANK_PARAM_SIZE, size, [])
    case Other(typ, half, tail) => Attribute(typ, half, tail)
  }

  lemma ItemIsAttribute(item: Item)
    requires item.Ok()
    ensures AsAttribute(item).Ok() && AsAttribute(item).Encode() == item.Words()
  {
  }

  function After(item: Item, info: Info): Info {
    Info(info.params + (if item.Parameter? then [ParamInfo(item.index, item.offset, 0)] else []),
         if item.Total? then item.size else info.total)
  }

  lemma ItemNoted(item: Item, info: Info)
    requires item.Ok()
    ensures var a := AsAttribute(item);
            Noted(a.typ, a.other, a.Third(), info) == After(item, info)
  {
    if item.Parameter? { DivMod(item.offset, item.index, U16); }
  }

  /** The walk over one item. */
  lemma WalkItem(item: Item, rest: seq<nat>, info: Info)
    requires item.Ok()
    ensures Walk(item.Words() + rest, info) == Walk(rest, After(item, info))
  {
    hide WordLen, Walk, Noted, Item.Ok, Item.Words, AsAttribute, Attribute.Ok, Attribute.Encode;
    var a := AsAttribute(item);
    ItemIsAttribute(item);
    ItemNoted(item, info);
    WalkOne(a, rest, info, After(item, info));
  }

  lemma AllWordsFront(items: seq<Item>, tail: seq<nat>)
    requires items != []
    ensures AllWords(items) + tail == items[0].Words() + (AllWords(items[1..]) + tail)
  {
  }

  /** From any section made of such items and ended in one of the three ways, the walk finds exactly
      the parameters, in their order, and the last total. */
  lemma {:induction false} WalkFinds(items: seq<Item>, tail: seq<nat>, info: Info)
    requires ItemsOk(items) && Ends(tail)
    ensures Walk(AllWords(items) + tail, info) == Done(Info(info.params + Parameters(items), LastTotal(items, info.total)))
    decreases |items|
  {
    hide Walk, Item.Ok, Item.Words, Ends;
    if items == [] {
      WalkEnds(tail, info);
      assert AllWords(items) + tail == tail && info.params + [] == info.params;
    } else {
      AllWordsFront(items, tail);
      WalkItem(items[0], AllWords(items[1..]) + tail, info);
      WalkFinds(items[1..], tail, After(items[0], info));
      FoundFront(items, info);
    }
  }

  lemma FoundFront(items: seq<Item>, info: Info)
    requires items != []
    ensures var next := After(items[0], info);
            && next.params + Parameters(items[1..]) == info.params + Parameters(items)
            && LastTotal(items[1..], next.total) == LastTotal(items, info.total)
  {
    hide LastTotal, Parameters;
    var one := if items[0].Parameter? then [ParamInfo(items[0].index, items[0].offset, 0)] else [];
    ItemsFront(items, info.total);
    JoinedTwice(info.params, one, Parameters(items[1..]));
  }

  lemma ItemsFront(items: seq<Item>, before: nat)
    requires items != []
    ensures LastTotal(items, before) == LastTotal(items[1..], if items[0].Total? then items[0].size else before)
    ensures Parameters(items) ==
            (if items[0].Parameter? then [ParamInfo(items[0].index, items[0].offset, 0)] else []) + Parameters(items[1..])
  {
  }

  lemma JoinedTwice<T>(a: seq<T>, b: seq<T>, c: seq<T>)
    ensures a + b + c == a + (b + c)
  {
  }

  lemma WalkFindsAll(data: seq<nat>)
    ensures forall items, tail | ItemsOk(items) && Ends(tail) && data == AllWords(items) + tail ::
              Walk(data, Info([], 0)) == Done(Info(Parameters(items), LastTotal(items, 0)))
  {
    hide ItemsOk, Ends, AllWords, Parameters, LastTotal, Walk;
    forall items, tail | ItemsOk(items) && Ends(tail) && data == AllWords(items) + tail
      ensures Walk(data, Info([], 0)) == Done(Info(Parameters(items), LastTotal(items, 0)))
    {
      WalkFinds(items, tail, Info([], 0));
      assert [] + Parameters(items) == Parameters(items);
    }
  }

  /** After any such items, an attribute of a kind that is none of theirs fails. */
  lemma {:induction false} WalkFails(items: seq<Item>, tail: seq<nat>, info: Info)
    requires ItemsOk(items) && tail != [] && !Ends(tail)
    requires tail[0] % 0x1_0000 !in {0x1704, 0x1903, 0x1b03, 0x2904, 0x3501, 0x3001, 0x2a01, 0x3704, 0x1e04, 0x0f04, 0x4604,
                                     0x3604, 0x0a04, 0x1d04}
    ensures Walk(AllWords(items) + tail, info) == Invalid
    decreases |items|
  {
    hide Item.Ok, Item.Words;
    if items == [] {
      assert AllWords(items) + tail == tail;
    } else {
      hide Walk;
      AllWordsFront(items, tail);
      WalkItem(items[0], AllWords(items[1..]) + tail, info);
      WalkFails(items[1..], tail, After(items[0], info));
    }
  }
}

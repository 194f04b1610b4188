/** The stream that stars out the second half of marked fields, by writing a field whole,
    seeking back from the end of the buffer and writing over what must not be shown. */
module MaskingStream {

  /** What is put into the stream: a mark, or a field in its printed form. */
  datatype Item = Dese | Field(text: string)

  function Stars(n: nat): string { seq(n, _ => '*') }

  /** A marked field keeps its first half, the larger one if its length is odd. */
  function Masked(text: string): string {
    text[..|text| - |text| / 2] + Stars(|text| / 2)
  }

  function Shown(text: string, marked: bool, separator: char): (r: string)
    ensures |r| == |text| + 1
  {
    (if marked then Masked(text) else text) + [separator]
  }

  /** Field by field: a mark covers the next field and no other. */
  function Expected(items: seq<Item>, marked: bool, separator: char): string {
    if items == [] then ""
    else match items[0]
      case Dese => Expected(items[1..], true, separator)
      case Field(text) => Shown(text, marked, separator) + Expected(items[1..], false, separator)
  }

  /** Character by character: the field, with stars in the second half if it is marked, and the
      separator. */
  lemma ShownCharacters(text: string, marked: bool, separator: char)
    ensures var r := Shown(text, marked, separator);
            && |r| == |text| + 1 && r[|text|] == separator
            && forall i | 0 <= i < |text| ::
                 r[i] == if marked && i >= |text| - |text| / 2 then '*' else text[i]
  {
  }

  /** Whether a field put in after `items` is marked: if a mark comes right before it. */
  predicate MarkedAfter(items: seq<Item>, marked: bool) {
    if items == [] then marked else items[|items| - 1].Dese?
  }

  /** One more field adds its own text and no other change, masked exactly if a mark came right
      before it; one more mark adds nothing. */
  lemma {:induction false} ExpectedSnoc(items: seq<Item>, marked: bool, separator: char, last: Item)
    ensures Expected(items + [last], marked, separator) == Expected(items, marked, separator) +
            if last.Dese? then "" else Shown(last.text, MarkedAfter(items, marked), separator)
  {
    hide Shown;
    var all := items + [last];
    if items == [] {
      assert all[1..] == [];
    } else {
      assert all[0] == items[0] && all[1..] == items[1..] + [last];
      ExpectedSnoc(items[1..], items[0].Dese?, separator, last);
    }
  }

  // ------------------------------------------------------------- what is hidden

  /** Two fields look alike masked if and only if they agree on what is kept. */
  lemma MaskedAlike(t: string, u: string)
    ensures Masked(t) == Masked(u) <==> |t| == |u| && t[..|t| - |t| / 2] == u[..|u| - |u| / 2]
  {
    assert |Masked(t)| == |t| && |Masked(u)| == |u|;
    assert Masked(t)[..|t| - |t| / 2] == t[..|t| - |t| / 2];
    assert Masked(u)[..|u| - |u| / 2] == u[..|u| - |u| / 2];
  }

  /** Two inputs that differ only in the hidden halves of marked fields. */
  predicate Alike(a: seq<Item>, b: seq<Item>, marked: bool) {
    |a| == |b| &&
    (a != [] ==>
       match (a[0], b[0])
       case (Dese, Dese) => Alike(a[1..], b[1..], true)
       case (Field(t), Field(u)) =>
         && (if marked then |t| == |u| && t[..|t| - |t| / 2] == u[..|u| - |u| / 2] else t == u)
         && Alike(a[1..], b[1..], false)
       case _ => false)
  }

  /** The output tells nothing about the hidden halves. */
  lemma {:induction false} HiddenHalvesDoNotShow(a: seq<Item>, b: seq<Item>, marked: bool, separator: char)
    requires Alike(a, b, marked)
    ensures Expected(a, marked, separator) == Expected(b, marked, separator)
  {
    if a != [] {
      match (a[0], b[0])
      case (Dese, Dese) =>
        HiddenHalvesDoNotShow(a[1..], b[1..], true, separator);
      case (Field(t), Field(u)) =>
        MaskedAlike(t, u);
        HiddenHalvesDoNotShow(a[1..], b[1..], false, separator);
    }
  }

  // ----------------------------------------------------------------- the buffer

  /** A string stream: what is written goes over what the put cursor stands on. */
  class StringStream {
    var buffer: string
    var put: nat

    ghost predicate Valid()
      reads this
    {
      put <= |buffer|
    }

    method Write(text: string)
      requires Valid()
      modifies this
      ensures Valid() && put == old(put) + |text|
      ensures buffer == old(buffer[..put]) + text + if put < |old(buffer)| then old(buffer)[put..] else ""
    {
      var after := put + |text|;
      buffer := buffer[..put] + text + if after < |buffer| then buffer[after..] else "";
      put := after;
    }

    method SeekBack(n: nat)
      requires n <= |buffer|
      modifies this`put
      ensures Valid() && put == |buffer| - n
    {
      put := |buffer| - n;
    }
  }

  // ----------------------------------------------------------------- the stream

  /** Whether all that is put in lands behind what the buffer holds: the cursor is at the end,
      or the first field brings it there because it is marked and prints nothing. */
  predicate Lands(items: seq<Item>, marked: bool, atEnd: bool) {
    items == [] || atEnd ||
    match items[0]
    case Dese => Lands(items[1..], true, atEnd)
    case Field(text) => marked && text == ""
  }

  class DesensitizeStringStream {
    const separator: char
    const ss: StringStream
    var desensitize: bool

    constructor (ss: StringStream, separator: char)
      ensures this.ss == ss && this.separator == separator && !desensitize
    {
      this.ss, this.separator, desensitize := ss, separator, false;
    }

    method Mark()
      modifies this
      ensures desensitize
    {
      desensitize := true;
    }

    method Mask(text: string)
      requires ss.Valid()
      modifies ss
      ensures ss.Valid() && ss.put == |ss.buffer|
      ensures var end := old(ss.put) + |text|;
              |ss.buffer| == 1 + if end < old(|ss.buffer|) then old(|ss.buffer|) else end
      ensures old(ss.put) == old(|ss.buffer|) || text == "" ==>
                ss.buffer == old(ss.buffer) + Shown(text, true, separator)
    {
      ghost var was := ss.buffer;
      var s := ss.put;
      ss.Write(text);
      var e := ss.put;
      var dur := (e - s) / 2;
      ss.SeekBack(dur);
      ghost var full := ss.buffer;
      ss.Write(Stars(dur) + [separator]);
      if s == |was| {
        assert full == was + text;
        assert full[..|full| - dur] == was + text[..|text| - dur];
        assert ss.buffer == was + text[..|text| - dur] + (Stars(dur) + [separator]);
      }
    }

    /** Puts in one field: it lands behind the buffer, shown as it must be, if and only if the
        cursor is at the end or there is nothing of the field to misplace. */
    method Push(text: string)
      requires ss.Valid()
      modifies this, ss
      ensures ss.Valid() && !desensitize
      ensures |ss.buffer| <= old(|ss.buffer|) + |text| + 1
      ensures ss.buffer == old(ss.buffer) + Shown(text, old(desensitize), separator) <==>
              old(ss.put) == old(|ss.buffer|) || (old(desensitize) && text == "")
      ensures ss.buffer == old(ss.buffer) + Shown(text, old(desensitize), separator) ==> ss.put == |ss.buffer|
      ensures ss.buffer != old(ss.buffer) + Shown(text, old(desensitize), separator) ==>
              |ss.buffer| < old(|ss.buffer|) + |text| + 1
    {
      if desensitize {
        Mask(text);
        desensitize := false;
      } else {
        ss.Write(text + [separator]);
      }
    }

    /** Puts in any sequence of marks and fields: the buffer grows by exactly their text if and
        only if the first field lands at the end, and a cursor at the end comes to the end again. */
    method PushAll(items: seq<Item>)
      requires ss.Valid()
      modifies this, ss
      ensures ss.Valid()
      ensures ss.buffer == old(ss.buffer) + Expected(items, old(desensitize), separator) <==>
              Lands(items, old(desensitize), old(ss.put) == old(|ss.buffer|))
      ensures old(ss.put) == old(|ss.buffer|) ==> ss.put == |ss.buffer|
    {
      hide Shown;
      ghost var atEnd := ss.put == |ss.buffer|;
      ghost var done, short, moved := "", false, false;
      for k := 0 to |items|
        invariant ss.Valid()
        invariant Expected(items, old(desensitize), separator) == done + Expected(items[k..], desensitize, separator)
        invariant !moved ==> done == "" && ss.buffer == old(ss.buffer) && ss.put == old(ss.put) && !short
        invariant !moved ==> Lands(items, old(desensitize), atEnd) == Lands(items[k..], desensitize, atEnd)
        invariant moved ==> Lands(items, old(desensitize), atEnd) == !short
        invariant !short ==> ss.buffer == old(ss.buffer) + done && (moved || atEnd ==> ss.put == |ss.buffer|)
        invariant short ==> !atEnd && |ss.buffer| < |old(ss.buffer)| + |done|
      {
        assert items[k..][1..] == items[k + 1..];
        match items[k]
        case Dese =>
          Mark();
        case Field(text) =>
          ghost var shown := Shown(text, desensitize, separator);
          ghost var before := ss.buffer;
          Push(text);
          done := done + shown;
          if ss.buffer != before + shown {
            short := true;
          }
          moved := true;
      }
      assert items[|items|..] == [];
    }
  }
}

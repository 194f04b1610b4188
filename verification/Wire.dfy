/** The words of an IPC parcel and the readers and writers every codec is built from.

    A parcel is a sequence of untyped 32-bit words.  A 64-bit number takes two words and
    a text takes its length followed by one word per code unit, so a reader that loses
    its place goes wrong instead of being stopped by a type tag. */
module Wire {

  type Word = w: int | -0x8000_0000 <= w < 0x8000_0000
  type Int64 = x: int | -0x8000_0000_0000_0000 <= x < 0x8000_0000_0000_0000
  type Uint64 = x: int | 0 <= x < 0x1_0000_0000_0000_0000
  type Words = seq<Word>

  /** A container whose size fits the 32-bit count that is sent for it. */
  type Vec<T> = s: seq<T> | |s| < 0x8000_0000 witness []
  type Text = Vec<Word>

  /** How often a loop that counts up to `n` runs. */
  function Positive(n: Word): nat { if n < 0 then 0 else n }

  /** What is left to read, and whether every checked read so far succeeded.  A function
      that returns false at its first failed read is a chain of `Next...` calls: once
      `ok` is lost no later read has an effect. */
  datatype Cursor = Cursor(rest: Words, ok: bool)
  datatype Parsed<+T> = Parsed(value: T, at: Cursor)

  // ---------------------------------------------------------------- writing
  // Every writer says what precedes the words `t` once the value has been written.

  function Int(x: Word, t: Words): Words { [x] + t }

  function Count<T>(xs: Vec<T>, t: Words): Words { [|xs|] + t }

  function Bool(b: bool, t: Words): Words { [if b then 1 else 0] + t }

  function Str(s: Text, t: Words): Words { [|s|] + s + t }

  function Signed(u: int): Word
    requires 0 <= u < 0x1_0000_0000
  {
    if u < 0x8000_0000 then u else u - 0x1_0000_0000
  }

  function Unsigned(w: Word): (u: int)
    ensures 0 <= u < 0x1_0000_0000
  {
    if w < 0 then w + 0x1_0000_0000 else w
  }

  function Long(x: Int64, t: Words): Words { [Signed(x % 0x1_0000_0000), x / 0x1_0000_0000] + t }

  function Ulong(x: Uint64, t: Words): Words { [Signed(x % 0x1_0000_0000), Signed(x / 0x1_0000_0000)] + t }

  /** A list's elements, one after the other. */
  function Each<T>(put: (T, Words) -> Words, xs: seq<T>, t: Words): Words {
    if xs == [] then t else put(xs[0], Each(put, xs[1..], t))
  }

  /** A count and that many elements. */
  function Counted<T>(put: (T, Words) -> Words, xs: Vec<T>, t: Words): Words { Count(xs, Each(put, xs, t)) }

  // ------------------------------------------------- checked (sticky) reading

  /** `was` is what the target variable holds, and keeps, when the read fails. */
  function NextInt(c: Cursor, was: Word): Parsed<Word> {
    if c.ok && |c.rest| >= 1 then Parsed(c.rest[0], Cursor(c.rest[1..], true))
    else Parsed(was, Cursor(c.rest, false))
  }

  function NextUint(c: Cursor): (r: Parsed<int>)
    ensures 0 <= r.value < 0x1_0000_0000
  {
    var r := NextInt(c, 0);
    Parsed(Unsigned(r.value), r.at)
  }

  function NextBool(c: Cursor, was: bool): Parsed<bool> {
    var r := NextInt(c, 0);
    Parsed(if r.at.ok then r.value != 0 else was, r.at)
  }

  function NextLong(c: Cursor, was: Int64): Parsed<Int64> {
    if c.ok && |c.rest| >= 2
    then Parsed(c.rest[1] * 0x1_0000_0000 + Unsigned(c.rest[0]), Cursor(c.rest[2..], true))
    else Parsed(was, Cursor(c.rest, false))
  }

  function NextUlong(c: Cursor, was: Uint64): Parsed<Uint64> {
    if c.ok && |c.rest| >= 2
    then Parsed(Unsigned(c.rest[1]) * 0x1_0000_0000 + Unsigned(c.rest[0]), Cursor(c.rest[2..], true))
    else Parsed(was, Cursor(c.rest, false))
  }

  predicate TextAhead(ws: Words) {
    |ws| >= 1 && 0 <= ws[0] < |ws|
  }

  function NextText(c: Cursor, was: Text): Parsed<Text> {
    if c.ok && TextAhead(c.rest)
    then Parsed(c.rest[1..1 + c.rest[0]], Cursor(c.rest[1 + c.rest[0]..], true))
    else Parsed(was, Cursor(c.rest, false))
  }

  /** A counted loop that stops at the first element that cannot be read. */
  function ListOf<T>(next: Cursor -> Parsed<T>, n: nat, c: Cursor): (r: Parsed<seq<T>>)
    ensures |r.value| <= n
    ensures r.at.ok ==> |r.value| == n && c.ok
  {
    if !c.ok then Parsed([], c)
    else if n == 0 then Parsed([], c)
    else
      var head := next(c);
      if !head.at.ok then Parsed([], head.at)
      else
        var tail := ListOf(next, n - 1, head.at);
        Parsed([head.value] + tail.value, tail.at)
  }

  /** A loop over `ListOf` that ends with `all` has read `xs` and has `n` elements to go. */
  ghost predicate ReadSoFar<T>(next: Cursor -> Parsed<T>, all: Parsed<seq<T>>, xs: seq<T>, n: nat, c: Cursor) {
    var tail := ListOf(next, n, c);
    all.at == tail.at && all.value == xs + tail.value
  }

  lemma ReadOneMore<T>(next: Cursor -> Parsed<T>, all: Parsed<seq<T>>, xs: seq<T>, n: nat, c: Cursor)
    requires n > 0 && c.ok && ReadSoFar(next, all, xs, n, c)
    ensures !next(c).at.ok ==> all == Parsed(xs, next(c).at)
    ensures next(c).at.ok ==> ReadSoFar(next, all, xs + [next(c).value], n - 1, next(c).at)
  {
    if next(c).at.ok {
      var tail := ListOf(next, n - 1, next(c).at);
      assert xs + ([next(c).value] + tail.value) == xs + [next(c).value] + tail.value;
    } else {
      assert xs + [] == xs;
    }
  }

  // --------------------------------------------------------- unchecked reading

  /** A read whose failure is not looked at: the value is a default, the place is kept. */
  function LaxInt(c: Cursor): Parsed<Word> {
    if |c.rest| >= 1 then Parsed(c.rest[0], c.(rest := c.rest[1..])) else Parsed(0, c)
  }

  function LaxBool(c: Cursor): Parsed<bool> {
    var r := LaxInt(c);
    Parsed(r.value != 0, r.at)
  }

  function LaxLong(c: Cursor): Parsed<Int64> {
    var r := NextLong(c.(ok := true), 0);
    Parsed(r.value, c.(rest := r.at.rest))
  }

  function LaxText(c: Cursor): Parsed<Text> {
    var r := NextText(c.(ok := true), []);
    Parsed(r.value, c.(rest := r.at.rest))
  }

  // ------------------------------------------------------------------ the laws

  lemma IntRoundTrip(x: Word, t: Words, was: Word)
    ensures NextInt(Cursor(Int(x, t), true), was) == Parsed(x, Cursor(t, true))
  {
    assert Int(x, t)[1..] == t;
  }

  lemma LongRoundTrip(x: Int64, t: Words, was: Int64)
    ensures NextLong(Cursor(Long(x, t), true), was) == Parsed(x, Cursor(t, true))
  {
    assert Long(x, t)[2..] == t;
  }

  lemma TextRoundTrip(s: Text, t: Words, was: Text)
    ensures NextText(Cursor(Str(s, t), true), was) == Parsed(s, Cursor(t, true))
  {
    assert Str(s, t)[1..1 + |s|] == s;
    assert Str(s, t)[1 + |s|..] == t;
  }

  /** Every basic reader undoes its writer. */
  lemma ReadFacts()
    ensures forall x: Word, t: Words, was: Word {:trigger NextInt(Cursor(Int(x, t), true), was)} ::
              NextInt(Cursor(Int(x, t), true), was) == Parsed(x, Cursor(t, true))
    ensures forall b: bool, t: Words, was: bool {:trigger NextBool(Cursor(Bool(b, t), true), was)} ::
              NextBool(Cursor(Bool(b, t), true), was) == Parsed(b, Cursor(t, true))
    ensures forall x: Int64, t: Words, was: Int64 {:trigger NextLong(Cursor(Long(x, t), true), was)} ::
              NextLong(Cursor(Long(x, t), true), was) == Parsed(x, Cursor(t, true))
    ensures forall x: Uint64, t: Words, was: Uint64 {:trigger NextUlong(Cursor(Ulong(x, t), true), was)} ::
              NextUlong(Cursor(Ulong(x, t), true), was) == Parsed(x, Cursor(t, true))
    ensures forall s: Text, t: Words, was: Text {:trigger NextText(Cursor(Str(s, t), true), was)} ::
              NextText(Cursor(Str(s, t), true), was) == Parsed(s, Cursor(t, true))
    ensures forall x: Word, t: Words, ok: bool {:trigger LaxInt(Cursor(Int(x, t), ok))} ::
              LaxInt(Cursor(Int(x, t), ok)) == Parsed(x, Cursor(t, ok))
    ensures forall s: Text, t: Words, ok: bool {:trigger LaxText(Cursor(Str(s, t), ok))} ::
              LaxText(Cursor(Str(s, t), ok)) == Parsed(s, Cursor(t, ok))
  {
    forall x: Word, t: Words, was: Word { IntRoundTrip(x, t, was); }
    forall b: bool, t: Words ensures Bool(b, t)[1..] == t {}
    forall x: Int64, t: Words, was: Int64 { LongRoundTrip(x, t, was); }
    forall x: Uint64, t: Words ensures Ulong(x, t)[2..] == t {}
    forall s: Text, t: Words, was: Text { TextRoundTrip(s, t, was); }
  }

  /** Conversely, a checked read that succeeds consumed the encoding of what it returned. */
  lemma ExactFacts()
    ensures forall c: Cursor, was: Word {:trigger NextInt(c, was)} ::
              NextInt(c, was).at.ok ==> c.ok && c.rest == Int(NextInt(c, was).value, NextInt(c, was).at.rest)
    ensures forall c: Cursor, was: Text {:trigger NextText(c, was)} ::
              NextText(c, was).at.ok ==> c.ok && c.rest == Str(NextText(c, was).value, NextText(c, was).at.rest)
    ensures forall c: Cursor, was: Int64 {:trigger NextLong(c, was)} ::
              NextLong(c, was).at.ok ==> c.ok && c.rest == Long(NextLong(c, was).value, NextLong(c, was).at.rest)
  {
  }

  /** Writing in front of `t + u` is writing in front of `t`, then `u`. */
  lemma WriteFacts()
    ensures forall x: Word, t: Words, u: Words {:trigger Int(x, t) + u} :: Int(x, t) + u == Int(x, t + u)
    ensures forall b: bool, t: Words, u: Words {:trigger Bool(b, t) + u} :: Bool(b, t) + u == Bool(b, t + u)
    ensures forall x: Int64, t: Words, u: Words {:trigger Long(x, t) + u} :: Long(x, t) + u == Long(x, t + u)
    ensures forall x: Uint64, t: Words, u: Words {:trigger Ulong(x, t) + u} :: Ulong(x, t) + u == Ulong(x, t + u)
    ensures forall s: Text, t: Words, u: Words {:trigger Str(s, t) + u} :: Str(s, t) + u == Str(s, t + u)
  {
  }

  lemma Regroup(a: Words, b: Words, c: Words)
    ensures a + (b + c) == a + b + c
  {
  }

  /** A writer: what it writes does not depend on what follows. */
  ghost predicate Writes<T(!new)>(put: (T, Words) -> Words) {
    forall x: T, t: Words :: put(x, t) == put(x, []) + t
  }

  /** A record codec: `next` reads back what `put` wrote, reduced to what `sent` says is
      transmitted, and leaves what followed. */
  ghost predicate ReadsBack<T(!new)>(
      put: (T, Words) -> Words, next: Cursor -> Parsed<T>, valid: T -> bool, sent: T -> T)
  {
    forall x: T, t: Words | valid(x) :: next(Cursor(put(x, t), true)) == Parsed(sent(x), Cursor(t, true))
  }

  /** The reader turns down what the writer wrote for an invalid value. */
  ghost predicate Rejects<T(!new)>(put: (T, Words) -> Words, next: Cursor -> Parsed<T>, valid: T -> bool) {
    forall x: T, t: Words | !valid(x) :: !next(Cursor(put(x, t), true)).at.ok
  }

  /** What was consumed is the encoding of what was returned. */
  ghost predicate ReadsExactly<T(!new)>(put: (T, Words) -> Words, next: Cursor -> Parsed<T>) {
    forall c: Cursor | next(c).at.ok :: c.ok && c.rest == put(next(c).value, next(c).at.rest)
  }

  function MapSent<T>(sent: T -> T, xs: seq<T>): (ys: seq<T>)
    ensures |ys| == |xs|
    ensures forall i | 0 <= i < |xs| :: ys[i] == sent(xs[i])
  {
    seq(|xs|, i requires 0 <= i < |xs| => sent(xs[i]))
  }

  lemma {:induction false} EachWrites<T(!new)>(put: (T, Words) -> Words, xs: seq<T>, t: Words)
    requires Writes(put)
    ensures Each(put, xs, t) == Each(put, xs, []) + t
  {
    if xs != [] {
      EachWrites(put, xs[1..], t);
      var tail := Each(put, xs[1..], []);
      assert put(xs[0], tail + t) == put(xs[0], []) + (tail + t);
      assert put(xs[0], tail) == put(xs[0], []) + tail;
    }
  }

  lemma CountedWrites<T(!new)>(put: (T, Words) -> Words, xs: Vec<T>, t: Words)
    requires Writes(put)
    ensures Counted(put, xs, t) == Counted(put, xs, []) + t
  {
    EachWrites(put, xs, t);
  }

  /** Appending one more element to what has been written. */
  lemma {:induction false} EachSnoc<T(!new)>(put: (T, Words) -> Words, xs: seq<T>, x: T)
    requires Writes(put)
    ensures Each(put, xs + [x], []) == Each(put, xs, []) + put(x, [])
  {
    if xs == [] {
      assert (xs + [x])[1..] == [];
    } else {
      EachSnoc(put, xs[1..], x);
      assert (xs + [x])[1..] == xs[1..] + [x] && (xs + [x])[0] == xs[0];
      var tail := Each(put, xs[1..], []);
      assert put(xs[0], tail + put(x, [])) == put(xs[0], []) + (tail + put(x, []));
      assert put(xs[0], tail) == put(xs[0], []) + tail;
    }
  }

  /** A counted list comes back whole, element by element and in order, and its end is
      found, if and only if every element is one the element reader accepts. */
  lemma {:induction false} ListRoundTrip<T(!new)>(
      put: (T, Words) -> Words, next: Cursor -> Parsed<T>, valid: T -> bool, sent: T -> T, xs: seq<T>, t: Words)
    requires ReadsBack(put, next, valid, sent)
    requires Rejects(put, next, valid)
    ensures var r := ListOf(next, |xs|, Cursor(Each(put, xs, t), true));
            && (r.at.ok <==> forall x | x in xs :: valid(x))
            && (r.at.ok ==> r == Parsed(MapSent(sent, xs), Cursor(t, true)))
  {
    if xs != [] {
      var head := next(Cursor(Each(put, xs, t), true));
      if valid(xs[0]) {
        assert head == Parsed(sent(xs[0]), Cursor(Each(put, xs[1..], t), true));
        hide ReadsBack, Rejects;
        ListRoundTrip(put, next, valid, sent, xs[1..], t);
        assert forall x :: x in xs <==> x == xs[0] || x in xs[1..];
        assert MapSent(sent, xs) == [sent(xs[0])] + MapSent(sent, xs[1..]);
      } else {
        assert !head.at.ok;
      }
    }
  }

  lemma {:induction false} ListExact<T(!new)>(
      put: (T, Words) -> Words, next: Cursor -> Parsed<T>, n: nat, c: Cursor)
    requires ReadsExactly(put, next)
    ensures var r := ListOf(next, n, c); r.at.ok ==> c.rest == Each(put, r.value, r.at.rest)
  {
    if c.ok && n > 0 && next(c).at.ok {
      ListExact(put, next, n - 1, next(c).at);
      assert ListOf(next, n, c).value[1..] == ListOf(next, n - 1, next(c).at).value;
    }
  }

  // ---------------------------------------------------------------- the parcel

  /** Words written and not yet read: writes go to the end, reads come from the front. */
  class Parcel {
    var unread: Words

    constructor ()
      ensures unread == []
    {
      unread := [];
    }

    method Write(ws: Words)
      modifies this
      ensures unread == old(unread) + ws
    {
      unread := unread + ws;
    }

    method ReadInt32() returns (ok: bool, x: Word)
      modifies this
      ensures Parsed(x, Cursor(unread, ok)) == NextInt(Cursor(old(unread), true), 0)
    {
      ok, x := |unread| >= 1, 0;
      if ok {
        x, unread := unread[0], unread[1..];
      }
    }

    method ReadUint32() returns (ok: bool, x: int)
      modifies this
      ensures Parsed(x, Cursor(unread, ok)) == NextUint(Cursor(old(unread), true))
    {
      var w;
      ok, w := ReadInt32();
      x := Unsigned(w);
    }

    /** Runs a chain of checked reads over the unread words. */
    method Run<T>(next: Cursor -> Parsed<T>) returns (ok: bool, x: T)
      modifies this
      ensures Parsed(x, Cursor(unread, ok)) == next(Cursor(old(unread), true))
    {
      var r := next(Cursor(unread, true));
      ok, x, unread := r.at.ok, r.value, r.at.rest;
    }

    /** The loops that read `n` records and give up at the first that fails. */
    method ReadList<T>(next: Cursor -> Parsed<T>, n: nat) returns (ok: bool, xs: seq<T>)
      modifies this
      ensures Parsed(xs, Cursor(unread, ok)) == ListOf(next, n, Cursor(old(unread), true))
    {
      ok, xs := true, [];
      ghost var all := ListOf(next, n, Cursor(unread, true));
      for i := 0 to n
        invariant ok && ReadSoFar(next, all, xs, n - i, Cursor(unread, true))
      {
        ReadOneMore(next, all, xs, n - i, Cursor(unread, true));
        var x;
        ok, x := Run(next);
        if !ok {
          return;
        }
        xs := xs + [x];
      }
      assert xs + [] == xs;
    }

    method WriteEach<T(!new)>(put: (T, Words) -> Words, xs: seq<T>)
      requires Writes(put)
      modifies this
      ensures unread == old(unread) + Each(put, xs, [])
    {
      for i := 0 to |xs|
        invariant unread == old(unread) + Each(put, xs[..i], [])
      {
        EachSnoc(put, xs[..i], xs[i]);
        assert xs[..i + 1] == xs[..i] + [xs[i]];
        Write(put(xs[i], []));
      }
      assert xs[..|xs|] == xs;
    }

    /** The loops that write a container: its size, then its elements. */
    method WriteCounted<T(!new)>(put: (T, Words) -> Words, xs: Vec<T>)
      requires Writes(put)
      modifies this
      ensures unread == old(unread) + Counted(put, xs, [])
    {
      Write(Count(xs, []));
      WriteEach(put, xs);
      assert Counted(put, xs, []) == Count(xs, []) + Each(put, xs, []);
    }
  }
}

/** Lists of records of several kinds: a count, then for each record a tag and its fields.

    The tag is written by the record itself but read by the list, which chooses the record
    reader by it.  Nothing is checked on the way: the list reader ignores failed reads, skips
    tags it does not know and appends records that were cut short. */
module TaggedList {
  import opened Options
  import opened Wire

  datatype Listing<+T> = Listing(records: seq<T>, rest: Words)

  const MAX_SIZE := 1000

  /** `fields` is the reader chosen by a tag, if the tag is known. */
  function Records<T>(fields: (Word, Cursor) -> Option<Parsed<T>>, n: nat, ws: Words): (r: Listing<T>)
    ensures |r.records| <= n
  {
    if n == 0 then Listing([], ws)
    else
      var tag := LaxInt(Cursor(ws, true));
      match fields(tag.value, tag.at)
      case None => Records(fields, n - 1, tag.at.rest)
      case Some(r) =>
        var tail := Records(fields, n - 1, r.at.rest);
        Listing([r.value] + tail.records, tail.rest)
  }

  function List<T>(fields: (Word, Cursor) -> Option<Parsed<T>>, ws: Words): Listing<T> {
    var size := LaxInt(Cursor(ws, true));
    if size.value >= MAX_SIZE || size.value < 0 then Listing([], size.at.rest)
    else Records(fields, size.value, size.at.rest)
  }

  /** The tag of an encoded record selects the reader that undoes it. */
  ghost predicate Dispatches<T(!new)>(
      put: (T, Words) -> Words, fields: (Word, Cursor) -> Option<Parsed<T>>, sent: T -> T)
  {
    forall x: T, t: Words ::
      var tag := LaxInt(Cursor(put(x, t), true));
      fields(tag.value, tag.at) == Some(Parsed(sent(x), Cursor(t, true)))
  }

  lemma {:induction false} RecordsRoundTrip<T(!new)>(
      put: (T, Words) -> Words, fields: (Word, Cursor) -> Option<Parsed<T>>, sent: T -> T, xs: seq<T>, t: Words)
    requires Dispatches(put, fields, sent)
    ensures Records(fields, |xs|, Each(put, xs, t)) == Listing(MapSent(sent, xs), t)
  {
    if xs != [] {
      RecordsRoundTrip(put, fields, sent, xs[1..], t);
      var tail := Each(put, xs[1..], t);
      var tag := LaxInt(Cursor(put(xs[0], tail), true));
      assert fields(tag.value, tag.at) == Some(Parsed(sent(xs[0]), Cursor(tail, true)));
      assert MapSent(sent, xs) == [sent(xs[0])] + MapSent(sent, xs[1..]);
    }
  }

  /** A written list comes back with the same length, order, kinds and values, and reading it
      stops exactly at its end, if and only if it is shorter than the reader's limit. */
  lemma FrameRoundTrip<T(!new)>(
      put: (T, Words) -> Words, fields: (Word, Cursor) -> Option<Parsed<T>>, sent: T -> T, xs: Vec<T>, t: Words)
    requires Dispatches(put, fields, sent)
    ensures List(fields, Counted(put, xs, t)) == Listing(MapSent(sent, xs), t) <==> |xs| < 1000
  {
    RecordsRoundTrip(put, fields, sent, xs, t);
    assert Counted(put, xs, t)[1..] == Each(put, xs, t);
  }

  /** A refused size yields nothing and uses up the size alone; an unknown tag yields nothing and
      uses up the tag alone. */
  lemma Refusals<T>(fields: (Word, Cursor) -> Option<Parsed<T>>, w: Word, n: nat, t: Words)
    ensures w < 0 || w >= 1000 ==> List(fields, Int(w, t)) == Listing([], t)
    ensures fields(w, Cursor(t, true)).None? ==> Records(fields, n + 1, Int(w, t)) == Records(fields, n, t)
  {
    hide Int, LaxInt;
    ReadFacts();
  }

  /** The list readers of the service proxy, which append to the caller's list. */
  method ProcessList<T>(fields: (Word, Cursor) -> Option<Parsed<T>>, reply: Parcel, already: seq<T>)
    returns (result: seq<T>)
    modifies reply
    ensures Listing(result, reply.unread)
            == var r := List(fields, old(reply.unread)); r.(records := already + r.records)
  {
    result := already;
    var _, size := reply.ReadInt32();
    if size >= MAX_SIZE {
      return;
    }
    ghost var start := reply.unread;
    var i := 0;
    while i < size
      invariant i <= size || size < 0
      invariant size >= 0 ==>
                  var r := Records(fields, size, start);
                  var tail := Records(fields, size - i, reply.unread);
                  already + r.records == result + tail.records && r.rest == tail.rest
      invariant size < 0 ==> i == 0 && result == already && reply.unread == start
    {
      var _, tag := reply.ReadInt32();
      var chosen := fields(tag, Cursor(reply.unread, true));
      if chosen.Some? {
        result, reply.unread := result + [chosen.value.value], chosen.value.at.rest;
      }
      i := i + 1;
    }
  }
}

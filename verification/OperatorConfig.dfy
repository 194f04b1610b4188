/** The operator configuration: eight maps, written one after the other and read back in the
    same order.  The readers look at no failed read, only at the sizes. */
module OperatorConfig {
  import opened Wire

  const MAX_CONFIG_SIZE := 10000

  /** A map whose size fits the 32-bit count that is sent for it. */
  type Dict<V> = m: map<Text, V> | |m| < 0x8000_0000 witness map[]

  /** What happens to a key that is read twice: `emplace` keeps the first value, indexing
      keeps the last. */
  datatype Keep = First | Last

  function Insert<V>(keep: Keep, m: map<Text, V>, k: Text, v: V): map<Text, V> {
    if keep.First? && k in m then m else m[k := v]
  }

  function Collect<V>(keep: Keep, m: map<Text, V>, es: seq<(Text, V)>): map<Text, V>
    decreases |es|
  {
    if es == [] then m else Collect(keep, Insert(keep, m, es[0].0, es[0].1), es[1..])
  }

  // ------------------------------------------------------------- one map

  /** `nextV` reads a value without looking at failures. */
  function LaxEntry<V>(nextV: Cursor -> Parsed<V>, c: Cursor): Parsed<(Text, V)> {
    var k := LaxText(c);
    var v := nextV(k.at);
    Parsed((k.value, v.value), v.at.(ok := c.ok))
  }

  function LaxList<T>(next: Cursor -> Parsed<T>, n: nat, c: Cursor): (r: Parsed<seq<T>>)
    ensures |r.value| == n
  {
    if n == 0 then Parsed([], c)
    else
      var head := next(c);
      var tail := LaxList(next, n - 1, head.at);
      Parsed([head.value] + tail.value, tail.at)
  }

  function EntryReader<V>(nextV: Cursor -> Parsed<V>): Cursor -> Parsed<(Text, V)> {
    c => LaxEntry(nextV, c)
  }

  function EntryWriter<V>(putV: (V, Words) -> Words): ((Text, V), Words) -> Words {
    (e: (Text, V), t) => Str(e.0, putV(e.1, t))
  }

  /** `was` is what the map holds, and keeps, when reading never gets to it. */
  function NextMap<V>(nextV: Cursor -> Parsed<V>, keep: Keep, was: Dict<V>, c: Cursor): (r: Parsed<Dict<V>>)
    ensures r.at.ok ==> |r.value| <= MAX_CONFIG_SIZE
    ensures !c.ok ==> r == Parsed(was, c)
    ensures c.ok && !r.at.ok ==> r.value == map[]
  {
    if !c.ok then Parsed(was, c)
    else
      var size := LaxInt(c);
      if size.value > MAX_CONFIG_SIZE || size.value < 0 then Parsed(map[], size.at.(ok := false))
      else
        var es := LaxList(EntryReader(nextV), size.value, size.at);
        CollectKeys(keep, map[], es.value, []);
        Parsed(Collect(keep, map[], es.value), es.at.(ok := true))
  }

  /** The entries of a map in some order, each key once. */
  ghost predicate EntriesOf<V>(es: seq<(Text, V)>, m: map<Text, V>) {
    && (forall i, j | 0 <= i < j < |es| :: es[i].0 != es[j].0)
    && (forall i | 0 <= i < |es| :: es[i].0 in m && m[es[i].0] == es[i].1)
    && |es| == |m|
  }

  // ------------------------------------------------ what collecting entries means

  predicate Reads<V>(es: seq<(Text, V)>, k: Text) {
    exists i | 0 <= i < |es| :: es[i].0 == k
  }

  predicate FirstOfKey<V>(es: seq<(Text, V)>, i: nat)
    requires i < |es|
  {
    forall j | 0 <= j < i :: es[j].0 != es[i].0
  }

  predicate LastOfKey<V>(es: seq<(Text, V)>, i: nat)
    requires i < |es|
  {
    forall j | i < j < |es| :: es[j].0 != es[i].0
  }

  /** The keys are those that were read, and no more of them than entries. */
  lemma {:induction false} CollectKeys<V>(keep: Keep, m: map<Text, V>, es: seq<(Text, V)>, k: Text)
    ensures var r := Collect(keep, m, es); (k in r <==> k in m || Reads(es, k)) && |r| <= |m| + |es|
    decreases |es|
  {
    if es != [] {
      CollectKeys(keep, Insert(keep, m, es[0].0, es[0].1), es[1..], k);
      if Reads(es, k) {
        var i :| 0 <= i < |es| && es[i].0 == k;
        assert i > 0 ==> es[1..][i - 1].0 == k;
      }
      if Reads(es[1..], k) {
        var i :| 0 <= i < |es[1..]| && es[1..][i].0 == k;
        assert es[i + 1].0 == k;
      }
    }
  }

  /** A key keeps its value while the map keeps first values, or while it is not read. */
  lemma {:induction false} Untouched<V>(keep: Keep, m: map<Text, V>, es: seq<(Text, V)>, k: Text)
    requires k in m && (keep.First? || !Reads(es, k))
    ensures var r := Collect(keep, m, es); k in r && r[k] == m[k]
    decreases |es|
  {
    if es != [] {
      if keep.Last? {
        assert es[0].0 != k;
        assert forall i | 0 <= i < |es[1..]| :: es[1..][i] == es[i + 1];
      }
      Untouched(keep, Insert(keep, m, es[0].0, es[0].1), es[1..], k);
    }
  }

  /** With `emplace`, a new key has the value it was first read with. */
  lemma {:induction false} FirstIsKept<V>(m: map<Text, V>, es: seq<(Text, V)>, i: nat)
    requires i < |es| && FirstOfKey(es, i) && es[i].0 !in m
    ensures var r := Collect(First, m, es); es[i].0 in r && r[es[i].0] == es[i].1
    decreases |es|
  {
    var m1 := Insert(First, m, es[0].0, es[0].1);
    if i == 0 {
      Untouched(First, m1, es[1..], es[0].0);
    } else {
      assert es[0].0 != es[i].0;
      assert forall j | 0 <= j < |es| - 1 :: es[1..][j] == es[j + 1];
      FirstIsKept(m1, es[1..], i - 1);
    }
  }

  /** With indexing, a key has the value it was last read with. */
  lemma {:induction false} LastIsKept<V>(m: map<Text, V>, es: seq<(Text, V)>, i: nat)
    requires i < |es| && LastOfKey(es, i)
    ensures var r := Collect(Last, m, es); es[i].0 in r && r[es[i].0] == es[i].1
    decreases |es|
  {
    var m1 := Insert(Last, m, es[0].0, es[0].1);
    assert forall j | 0 <= j < |es| - 1 :: es[1..][j] == es[j + 1];
    if i == 0 {
      Untouched(Last, m1, es[1..], es[0].0);
    } else {
      LastIsKept(m1, es[1..], i - 1);
    }
  }

  /** The map `m` is what reading the entries `es` leaves: its keys are those that were read,
      and a key that was read more than once has its first or its last value. */
  ghost predicate Keeps<V>(keep: Keep, es: seq<(Text, V)>, m: map<Text, V>) {
    && (forall k: Text :: k in m <==> Reads(es, k))
    && forall i: nat | i < |es| && (if keep.First? then FirstOfKey(es, i) else LastOfKey(es, i)) ::
         es[i].0 in m && m[es[i].0] == es[i].1
  }

  lemma CollectKeeps<V>(keep: Keep, es: seq<(Text, V)>)
    ensures Keeps(keep, es, Collect(keep, map[], es))
  {
    forall k: Text ensures k in Collect(keep, map[], es) <==> Reads(es, k) {
      CollectKeys(keep, map[], es, k);
    }
    forall i: nat | i < |es| && (if keep.First? then FirstOfKey(es, i) else LastOfKey(es, i))
      ensures var m := Collect(keep, map[], es); es[i].0 in m && m[es[i].0] == es[i].1
    {
      if keep.First? {
        FirstIsKept(map[], es, i);
      } else {
        LastIsKept(map[], es, i);
      }
    }
  }

  /** The entries that lie in any words, read without looking at failures. */
  function EntriesIn<V>(nextV: Cursor -> Parsed<V>, c: Cursor): Vec<(Text, V)> {
    var size := LaxInt(c);
    LaxList(EntryReader(nextV), Positive(size.value), size.at).value
  }

  /** Whatever the words are, an accepted map holds what its entries leave. */
  lemma AcceptedMapKeeps<V>(nextV: Cursor -> Parsed<V>, keep: Keep, was: Dict<V>, c: Cursor)
    ensures NextMap(nextV, keep, was, c).at.ok ==>
              Keeps(keep, EntriesIn(nextV, c), NextMap(nextV, keep, was, c).value)
  {
    CollectKeeps(keep, EntriesIn(nextV, c));
  }

  /** Collecting the entries of a map gives the map, whichever value a repeated key keeps. */
  lemma CollectEntries<V>(keep: Keep, es: seq<(Text, V)>, m: map<Text, V>)
    requires EntriesOf(es, m)
    ensures Collect(keep, map[], es) == m
  {
    var r := Collect(keep, map[], es);
    AllKeysListed(es, m);
    CollectKeeps(keep, es);
    forall k | k in m ensures k in r && r[k] == m[k] {
      var i :| 0 <= i < |es| && es[i].0 == k;
      assert FirstOfKey(es, i) && LastOfKey(es, i);
    }
  }

  function KeySet<V>(es: seq<(Text, V)>): set<Text> { set i | 0 <= i < |es| :: es[i].0 }

  lemma {:induction false} DistinctCount<V>(es: seq<(Text, V)>)
    requires forall i, j | 0 <= i < j < |es| :: es[i].0 != es[j].0
    ensures |KeySet(es)| == |es|
  {
    if es != [] {
      var front := es[..|es| - 1];
      DistinctCount(front);
      var last := es[|es| - 1].0;
      assert KeySet(es) == KeySet(front) + {last} by {
        forall k | k in KeySet(es) ensures k in KeySet(front) + {last} {
          var i :| 0 <= i < |es| && es[i].0 == k;
          if i < |front| {
            assert front[i].0 == k;
          }
        }
        forall k | k in KeySet(front) ensures k in KeySet(es) {
          var i :| 0 <= i < |front| && front[i].0 == k;
          assert es[i].0 == k;
        }
      }
      assert last !in KeySet(front);
    }
  }

  lemma AllKeysListed<V>(es: seq<(Text, V)>, m: map<Text, V>)
    requires EntriesOf(es, m)
    ensures forall k | k in m :: Reads(es, k)
  {
    DistinctCount(es);
    assert KeySet(es) <= m.Keys;
    SameSize(KeySet(es), m.Keys);
  }

  lemma SameSize(a: set<Text>, b: set<Text>)
    requires a <= b && |a| == |b|
    ensures a == b
  {
    assert |b - a| == |b| - |a|;
  }

  // ---------------------------------------------------------- maps on the wire

  function PutMap<V>(putV: (V, Words) -> Words, es: Vec<(Text, V)>, t: Words): Words {
    Counted(EntryWriter(putV), es, t)
  }

  /** An unchecked reader that undoes a writer. */
  ghost predicate LaxBack<T(!new)>(put: (T, Words) -> Words, next: Cursor -> Parsed<T>) {
    forall x: T, t: Words :: next(Cursor(put(x, t), true)) == Parsed(x, Cursor(t, true))
  }

  lemma {:induction false} LaxListRoundTrip<T(!new)>(
      put: (T, Words) -> Words, next: Cursor -> Parsed<T>, xs: seq<T>, t: Words)
    requires LaxBack(put, next)
    ensures LaxList(next, |xs|, Cursor(Each(put, xs, t), true)) == Parsed(xs, Cursor(t, true))
  {
    if xs != [] {
      LaxListRoundTrip(put, next, xs[1..], t);
      assert next(Cursor(Each(put, xs, t), true)) == Parsed(xs[0], Cursor(Each(put, xs[1..], t), true));
      assert [xs[0]] + xs[1..] == xs;
    }
  }

  lemma EntriesBack<V(!new)>(putV: (V, Words) -> Words, nextV: Cursor -> Parsed<V>)
    requires LaxBack(putV, nextV)
    ensures LaxBack(EntryWriter(putV), EntryReader(nextV))
  {
    var put, next := EntryWriter(putV), EntryReader(nextV);
    forall e: (Text, V), t: Words ensures next(Cursor(put(e, t), true)) == Parsed(e, Cursor(t, true)) {
      TextRoundTrip(e.0, putV(e.1, t), []);
      assert nextV(Cursor(putV(e.1, t), true)) == Parsed(e.1, Cursor(t, true));
    }
  }

  /** A map is read back from its entries in any order if and only if it is within the limit. */
  lemma MapRoundTrip<V(!new)>(
      putV: (V, Words) -> Words, nextV: Cursor -> Parsed<V>, keep: Keep,
      was: Dict<V>, es: Vec<(Text, V)>, m: Dict<V>, t: Words)
    requires LaxBack(putV, nextV) && EntriesOf(es, m)
    ensures var r := NextMap(nextV, keep, was, Cursor(PutMap(putV, es, t), true));
            && (r.at.ok <==> |m| <= 10000)
            && (r.at.ok ==> r == Parsed(m, Cursor(t, true)))
  {
    hide LaxBack;
    EntriesBack(putV, nextV);
    LaxListRoundTrip(EntryWriter(putV), EntryReader(nextV), es, t);
    assert PutMap(putV, es, t)[1..] == Each(EntryWriter(putV), es, t);
    CollectEntries(keep, es, m);
  }

  // --------------------------------------------------------------- vectors

  /** A vector is read only if its size can be true of what is left. */
  function LaxVec<T>(next: Cursor -> Parsed<T>, c: Cursor): Parsed<Vec<T>> {
    var size := LaxInt(c);
    if size.value < 0 || size.value > |size.at.rest| then Parsed([], size.at)
    else
      var r := LaxList(next, size.value, size.at);
      Parsed(r.value, r.at)
  }

  lemma {:induction false} EachLonger<T>(put: (T, Words) -> Words, xs: seq<T>, t: Words)
    requires forall x, u :: |put(x, u)| > |u|
    ensures |Each(put, xs, t)| >= |xs| + |t|
  {
    if xs != [] {
      EachLonger(put, xs[1..], t);
    }
  }

  lemma VecRoundTrip<T(!new)>(put: (T, Words) -> Words, next: Cursor -> Parsed<T>, xs: Vec<T>, t: Words)
    requires LaxBack(put, next) && forall x, u :: |put(x, u)| > |u|
    ensures LaxVec(next, Cursor(Counted(put, xs, t), true)) == Parsed(xs, Cursor(t, true))
  {
    hide LaxBack;
    LaxListRoundTrip(put, next, xs, t);
    EachLonger(put, xs, t);
    assert Counted(put, xs, t)[1..] == Each(put, xs, t);
  }

  function PutTexts(xs: Vec<Text>, t: Words): Words { Counted(Str, xs, t) }
  function PutInts(xs: Vec<Word>, t: Words): Words { Counted(Int, xs, t) }
  function PutLongs(xs: Vec<Int64>, t: Words): Words { Counted(Long, xs, t) }

  function LaxTexts(c: Cursor): Parsed<Vec<Text>> { LaxVec(LaxText, c) }
  function LaxInts(c: Cursor): Parsed<Vec<Word>> { LaxVec(LaxInt, c) }
  function LaxLongs(c: Cursor): Parsed<Vec<Int64>> { LaxVec(LaxLong, c) }

  lemma ScalarsBack()
    ensures LaxBack(Str, LaxText) && LaxBack(Bool, LaxBool) && LaxBack(Int, LaxInt) && LaxBack(Long, LaxLong)
  {
    ReadFacts();
    forall b: bool, t: Words ensures Bool(b, t)[1..] == t {}
  }

  lemma VectorsBack()
    ensures LaxBack(PutTexts, LaxTexts) && LaxBack(PutInts, LaxInts) && LaxBack(PutLongs, LaxLongs)
  {
    ScalarsBack();
    forall xs: Vec<Text>, t: Words ensures LaxTexts(Cursor(PutTexts(xs, t), true)) == Parsed(xs, Cursor(t, true)) {
      VecRoundTrip(Str, LaxText, xs, t);
    }
    forall xs: Vec<Word>, t: Words ensures LaxInts(Cursor(PutInts(xs, t), true)) == Parsed(xs, Cursor(t, true)) {
      VecRoundTrip(Int, LaxInt, xs, t);
    }
    forall xs: Vec<Int64>, t: Words ensures LaxLongs(Cursor(PutLongs(xs, t), true)) == Parsed(xs, Cursor(t, true)) {
      VecRoundTrip(Long, LaxLong, xs, t);
    }
  }

  // ------------------------------------------------------- the eight maps

  datatype Config = Config(
    configValue: Dict<Text>,
    boolValue: Dict<bool>,
    stringValue: Dict<Text>,
    stringArrayValue: Dict<Vec<Text>>,
    intValue: Dict<Word>,
    intArrayValue: Dict<Vec<Word>>,
    longValue: Dict<Int64>,
    longArrayValue: Dict<Vec<Int64>>)

  /** The entries of the eight maps in the order in which they are written. */
  datatype Listed = Listed(
    configValue: Vec<(Text, Text)>,
    boolValue: Vec<(Text, bool)>,
    stringValue: Vec<(Text, Text)>,
    stringArrayValue: Vec<(Text, Vec<Text>)>,
    intValue: Vec<(Text, Word)>,
    intArrayValue: Vec<(Text, Vec<Word>)>,
    longValue: Vec<(Text, Int64)>,
    longArrayValue: Vec<(Text, Vec<Int64>)>)

  ghost predicate Lists(w: Listed, x: Config) {
    && EntriesOf(w.configValue, x.configValue)
    && EntriesOf(w.boolValue, x.boolValue)
    && EntriesOf(w.stringValue, x.stringValue)
    && EntriesOf(w.stringArrayValue, x.stringArrayValue)
    && EntriesOf(w.intValue, x.intValue)
    && EntriesOf(w.intArrayValue, x.intArrayValue)
    && EntriesOf(w.longValue, x.longValue)
    && EntriesOf(w.longArrayValue, x.longArrayValue)
  }

  predicate WithinLimits(x: Config) {
    && |x.configValue| <= 10000
    && |x.boolValue| <= 10000
    && |x.stringValue| <= 10000
    && |x.stringArrayValue| <= 10000
    && |x.intValue| <= 10000
    && |x.intArrayValue| <= 10000
    && |x.longValue| <= 10000
    && |x.longArrayValue| <= 10000
  }

  function PutHead(w: Listed, t: Words): Words {
    PutMap(Str, w.configValue,
      PutMap(Bool, w.boolValue,
        PutMap(Str, w.stringValue,
          PutMap(PutTexts, w.stringArrayValue, t))))
  }

  function PutTail(w: Listed, t: Words): Words {
    PutMap(Int, w.intValue,
      PutMap(PutInts, w.intArrayValue,
        PutMap(Long, w.longValue,
          PutMap(PutLongs, w.longArrayValue, t))))
  }

  function PutConfig(w: Listed, t: Words): Words { PutHead(w, PutTail(w, t)) }

  /** The first four maps; the two from text to text are filled with `emplace`, all other
      maps by indexing. */
  function NextHead(was: Config, c: Cursor): Parsed<Config> {
    var r1 := NextMap(LaxText, First, was.configValue, c);
    var r2 := NextMap(LaxBool, Last, was.boolValue, r1.at);
    var r3 := NextMap(LaxText, First, was.stringValue, r2.at);
    var r4 := NextMap(LaxTexts, Last, was.stringArrayValue, r3.at);
    Parsed(was.(configValue := r1.value, boolValue := r2.value, stringValue := r3.value,
                stringArrayValue := r4.value), r4.at)
  }

  /** The last four maps. */
  function NextTail(was: Config, c: Cursor): Parsed<Config> {
    var r5 := NextMap(LaxInt, Last, was.intValue, c);
    var r6 := NextMap(LaxInts, Last, was.intArrayValue, r5.at);
    var r7 := NextMap(LaxLong, Last, was.longValue, r6.at);
    var r8 := NextMap(LaxLongs, Last, was.longArrayValue, r7.at);
    Parsed(was.(intValue := r5.value, intArrayValue := r6.value, longValue := r7.value,
                longArrayValue := r8.value), r8.at)
  }

  function NextConfig(was: Config, c: Cursor): Parsed<Config> {
    var head := NextHead(was, c);
    NextTail(head.value, head.at)
  }

  /** Whatever the words are, in an accepted configuration a key that was read more than once
      has its first value in the two maps from text to text filled with `emplace`, and its last
      value in the six others. */
  lemma AcceptedConfigKeeps(was: Config, c: Cursor)
    ensures var r := NextConfig(was, c);
            r.at.ok ==>
              var c2 := NextMap(LaxText, First, was.configValue, c).at;
              var c3 := NextMap(LaxBool, Last, was.boolValue, c2).at;
              var c4 := NextMap(LaxText, First, was.stringValue, c3).at;
              var c5 := NextMap(LaxTexts, Last, was.stringArrayValue, c4).at;
              var c6 := NextMap(LaxInt, Last, was.intValue, c5).at;
              var c7 := NextMap(LaxInts, Last, was.intArrayValue, c6).at;
              var c8 := NextMap(LaxLong, Last, was.longValue, c7).at;
              && Keeps(First, EntriesIn(LaxText, c), r.value.configValue)
              && Keeps(Last, EntriesIn(LaxBool, c2), r.value.boolValue)
              && Keeps(First, EntriesIn(LaxText, c3), r.value.stringValue)
              && Keeps(Last, EntriesIn(LaxTexts, c4), r.value.stringArrayValue)
              && Keeps(Last, EntriesIn(LaxInt, c5), r.value.intValue)
              && Keeps(Last, EntriesIn(LaxInts, c6), r.value.intArrayValue)
              && Keeps(Last, EntriesIn(LaxLong, c7), r.value.longValue)
              && Keeps(Last, EntriesIn(LaxLongs, c8), r.value.longArrayValue)
  {
    hide NextMap, Keeps, EntriesIn;
    var c2 := NextMap(LaxText, First, was.configValue, c).at;
    var c3 := NextMap(LaxBool, Last, was.boolValue, c2).at;
    var c4 := NextMap(LaxText, First, was.stringValue, c3).at;
    var c5 := NextMap(LaxTexts, Last, was.stringArrayValue, c4).at;
    var c6 := NextMap(LaxInt, Last, was.intValue, c5).at;
    var c7 := NextMap(LaxInts, Last, was.intArrayValue, c6).at;
    var c8 := NextMap(LaxLong, Last, was.longValue, c7).at;
    AcceptedMapKeeps(LaxText, First, was.configValue, c);
    AcceptedMapKeeps(LaxBool, Last, was.boolValue, c2);
    AcceptedMapKeeps(LaxText, First, was.stringValue, c3);
    AcceptedMapKeeps(LaxTexts, Last, was.stringArrayValue, c4);
    AcceptedMapKeeps(LaxInt, Last, was.intValue, c5);
    AcceptedMapKeeps(LaxInts, Last, was.intArrayValue, c6);
    AcceptedMapKeeps(LaxLong, Last, was.longValue, c7);
    AcceptedMapKeeps(LaxLongs, Last, was.longArrayValue, c8);
  }

  lemma ConfigReadsBack(w: Listed, x: Config, was: Config, t: Words)
    requires Lists(w, x)
    ensures var r := NextConfig(was, Cursor(PutConfig(w, t), true));
            && (r.at.ok <==> WithinLimits(x))
            && (r.at.ok ==> r == Parsed(x, Cursor(t, true)))
  {
    hide NextMap, PutMap, LaxBack, EntriesOf;
    ScalarsBack();
    VectorsBack();
    var t7 := PutMap(PutLongs, w.longArrayValue, t);
    var t6 := PutMap(Long, w.longValue, t7);
    var t5 := PutMap(PutInts, w.intArrayValue, t6);
    var t4 := PutMap(Int, w.intValue, t5);
    var t3 := PutMap(PutTexts, w.stringArrayValue, t4);
    var t2 := PutMap(Str, w.stringValue, t3);
    var t1 := PutMap(Bool, w.boolValue, t2);
    MapRoundTrip(Str, LaxText, First, was.configValue, w.configValue, x.configValue, t1);
    MapRoundTrip(Bool, LaxBool, Last, was.boolValue, w.boolValue, x.boolValue, t2);
    MapRoundTrip(Str, LaxText, First, was.stringValue, w.stringValue, x.stringValue, t3);
    MapRoundTrip(PutTexts, LaxTexts, Last, was.stringArrayValue, w.stringArrayValue, x.stringArrayValue, t4);
    MapRoundTrip(Int, LaxInt, Last, was.intValue, w.intValue, x.intValue, t5);
    MapRoundTrip(PutInts, LaxInts, Last, was.intArrayValue, w.intArrayValue, x.intArrayValue, t6);
    MapRoundTrip(Long, LaxLong, Last, was.longValue, w.longValue, x.longValue, t7);
    MapRoundTrip(PutLongs, LaxLongs, Last, was.longArrayValue, w.longArrayValue, x.longArrayValue, t);
  }

  /** What is written for a map does not depend on what follows. */
  lemma MapWrites<V(!new)>(putV: (V, Words) -> Words, es: Vec<(Text, V)>, t: Words)
    requires Writes(putV)
    ensures PutMap(putV, es, t) == PutMap(putV, es, []) + t
  {
    EntryWrites(putV);
    CountedWrites(EntryWriter(putV), es, t);
  }

  lemma EntryWrites<V(!new)>(putV: (V, Words) -> Words)
    requires Writes(putV)
    ensures Writes(EntryWriter(putV))
  {
    forall e: (Text, V), t: Words ensures Str(e.0, putV(e.1, t)) == Str(e.0, putV(e.1, [])) + t {
      assert putV(e.1, t) == putV(e.1, []) + t;
    }
  }

  lemma ValuesWrite()
    ensures Writes(Str) && Writes(Bool) && Writes(Int) && Writes(Long)
    ensures Writes(PutTexts) && Writes(PutInts) && Writes(PutLongs)
  {
    forall xs: Vec<Text>, t: Words { CountedWrites(Str, xs, t); }
    forall xs: Vec<Word>, t: Words { CountedWrites(Int, xs, t); }
    forall xs: Vec<Int64>, t: Words { CountedWrites(Long, xs, t); }
  }

  function HeadWords(w: Listed): Words {
    PutMap(Str, w.configValue, []) + PutMap(Bool, w.boolValue, [])
    + PutMap(Str, w.stringValue, []) + PutMap(PutTexts, w.stringArrayValue, [])
  }

  function TailWords(w: Listed): Words {
    PutMap(Int, w.intValue, []) + PutMap(PutInts, w.intArrayValue, [])
    + PutMap(Long, w.longValue, []) + PutMap(PutLongs, w.longArrayValue, [])
  }

  lemma HeadWrites(w: Listed, t: Words)
    ensures PutHead(w, t) == HeadWords(w) + t
  {
    hide PutMap, Writes;
    ValuesWrite();
    var t3 := PutMap(PutTexts, w.stringArrayValue, t);
    var t2 := PutMap(Str, w.stringValue, t3);
    var t1 := PutMap(Bool, w.boolValue, t2);
    MapWrites(Str, w.configValue, t1);
    MapWrites(Bool, w.boolValue, t2);
    MapWrites(Str, w.stringValue, t3);
    MapWrites(PutTexts, w.stringArrayValue, t);
    var a1 := PutMap(Str, w.configValue, []);
    var a2 := a1 + PutMap(Bool, w.boolValue, []);
    var a3 := a2 + PutMap(Str, w.stringValue, []);
    Regroup(a1, PutMap(Bool, w.boolValue, []), t2);
    Regroup(a2, PutMap(Str, w.stringValue, []), t3);
    Regroup(a3, PutMap(PutTexts, w.stringArrayValue, []), t);
  }

  lemma TailWrites(w: Listed, t: Words)
    ensures PutTail(w, t) == TailWords(w) + t
  {
    hide PutMap, Writes;
    ValuesWrite();
    var t3 := PutMap(PutLongs, w.longArrayValue, t);
    var t2 := PutMap(Long, w.longValue, t3);
    var t1 := PutMap(PutInts, w.intArrayValue, t2);
    MapWrites(Int, w.intValue, t1);
    MapWrites(PutInts, w.intArrayValue, t2);
    MapWrites(Long, w.longValue, t3);
    MapWrites(PutLongs, w.longArrayValue, t);
    var a1 := PutMap(Int, w.intValue, []);
    var a2 := a1 + PutMap(PutInts, w.intArrayValue, []);
    var a3 := a2 + PutMap(Long, w.longValue, []);
    Regroup(a1, PutMap(PutInts, w.intArrayValue, []), t2);
    Regroup(a2, PutMap(Long, w.longValue, []), t3);
    Regroup(a3, PutMap(PutLongs, w.longArrayValue, []), t);
  }

  /** The eight maps follow one another. */
  lemma ConfigWrites(w: Listed, t: Words)
    ensures PutConfig(w, t) == PutConfig(w, []) + t
    ensures PutConfig(w, []) == HeadWords(w) + TailWords(w)
  {
    hide PutHead, PutTail, HeadWords, TailWords;
    HeadWrites(w, PutTail(w, t));
    HeadWrites(w, PutTail(w, []));
    TailWrites(w, t);
    TailWrites(w, []);
    Regroup(HeadWords(w), TailWords(w), t);
    assert TailWords(w) + [] == TailWords(w);
  }

  /** Reading a written configuration gives back all eight maps, whatever the reader held
      before and in whatever order their entries were written, and leaves what followed, if
      and only if none of the maps is over the limit. */
  lemma ConfigRoundTrip(w: Listed, x: Config, was: Config, t: Words)
    requires Lists(w, x)
    ensures var r := NextConfig(was, Cursor(PutConfig(w, []) + t, true));
            && (r.at.ok <==> WithinLimits(x))
            && (r.at.ok ==> r == Parsed(x, Cursor(t, true)))
  {
    hide NextConfig, PutConfig, Lists, WithinLimits;
    ConfigWrites(w, t);
    ConfigReadsBack(w, x, was, t);
  }

  // ---------------------------------------------------- the loops and the object

  /** A loop that ends with the entries `all` has filled `m` and has `n` entries to go. */
  ghost predicate CollectedSoFar<V>(
      nextV: Cursor -> Parsed<V>, keep: Keep, all: Parsed<seq<(Text, V)>>, m: map<Text, V>, n: nat, ws: Words)
  {
    var left := LaxList(EntryReader(nextV), n, Cursor(ws, true));
    all.at == left.at && Collect(keep, map[], all.value) == Collect(keep, m, left.value)
  }

  lemma CollectOneMore<V>(
      nextV: Cursor -> Parsed<V>, keep: Keep, all: Parsed<seq<(Text, V)>>, m: map<Text, V>, n: nat, ws: Words)
    requires n > 0 && CollectedSoFar(nextV, keep, all, m, n, ws)
    ensures var k := LaxText(Cursor(ws, true));
            var v := nextV(k.at);
            CollectedSoFar(nextV, keep, all, Insert(keep, m, k.value, v.value), n - 1, v.at.rest)
  {
    var e := LaxEntry(nextV, Cursor(ws, true));
    var left := LaxList(EntryReader(nextV), n - 1, e.at);
    assert ([e.value] + left.value)[1..] == left.value;
  }

  /** Clears a map and fills it again from the parcel. */
  method ReadMap<V>(p: Parcel, nextV: Cursor -> Parsed<V>, keep: Keep, ghost was: Dict<V>)
    returns (ok: bool, m: Dict<V>)
    modifies p
    ensures Parsed(m, Cursor(p.unread, ok)) == NextMap(nextV, keep, was, Cursor(old(p.unread), true))
  {
    m := map[];
    var _, size := p.ReadInt32();
    if size > MAX_CONFIG_SIZE || size < 0 {
      return false, m;
    }
    ghost var all := LaxList(EntryReader(nextV), size, Cursor(p.unread, true));
    for k := 0 to size
      invariant |m| <= k
      invariant CollectedSoFar(nextV, keep, all, m, size - k, p.unread)
    {
      hide CollectedSoFar, LaxText;
      CollectOneMore(nextV, keep, all, m, size - k, p.unread);
      var _, key := p.Run(LaxText);
      var _, value := p.Run(nextV);
      m := Insert(keep, m, key, value);
    }
    ok := true;
  }

  /** The entries `es` have been written and the keys `left` are still to come. */
  ghost predicate ListedSoFar<V>(es: seq<(Text, V)>, left: set<Text>, m: map<Text, V>) {
    && (forall i, j | 0 <= i < j < |es| :: es[i].0 != es[j].0)
    && (forall i | 0 <= i < |es| :: es[i].0 in m && es[i].0 !in left && m[es[i].0] == es[i].1)
    && left <= m.Keys && |es| + |left| == |m|
  }

  lemma InLeft<V>(es: seq<(Text, V)>, left: set<Text>, m: map<Text, V>, key: Text)
    requires ListedSoFar(es, left, m) && key in left
    ensures key in m && |es| < |m|
  {
    assert left != {};
  }

  lemma ListOneMore<V>(es: seq<(Text, V)>, left: set<Text>, m: map<Text, V>, key: Text)
    requires ListedSoFar(es, left, m) && key in left && key in m
    ensures ListedSoFar(es + [(key, m[key])], left - {key}, m)
  {
  }

  /** The entries of a map in the order in which it is walked through. */
  method WalkThrough<V>(m: Dict<V>) returns (es: Vec<(Text, V)>)
    ensures EntriesOf(es, m)
  {
    es := [];
    var left := m.Keys;
    while left != {}
      invariant ListedSoFar(es, left, m)
      decreases |left|
    {
      hide ListedSoFar;
      var key :| key in left;
      InLeft(es, left, m, key);
      ListOneMore(es, left, m, key);
      es := es + [(key, m[key])];
      left := left - {key};
    }
  }

  /** Writes a map's size and its entries, each key once, in some order. */
  method WriteMap<V(!new)>(p: Parcel, putV: (V, Words) -> Words, m: Dict<V>) returns (es: Vec<(Text, V)>)
    requires Writes(putV)
    modifies p
    ensures EntriesOf(es, m)
    ensures p.unread == old(p.unread) + PutMap(putV, es, [])
  {
    hide Writes, EntriesOf;
    es := WalkThrough(m);
    EntryWrites(putV);
    p.WriteCounted(EntryWriter(putV), es);
  }

  class Configuration {
    var configValue: Dict<Text>
    var boolValue: Dict<bool>
    var stringValue: Dict<Text>
    var stringArrayValue: Dict<Vec<Text>>
    var intValue: Dict<Word>
    var intArrayValue: Dict<Vec<Word>>
    var longValue: Dict<Int64>
    var longArrayValue: Dict<Vec<Int64>>

    ghost function Value(): Config
      reads this
    {
      Config(configValue, boolValue, stringValue, stringArrayValue, intValue, intArrayValue, longValue, longArrayValue)
    }

    method WriteHead(p: Parcel)
      returns (w1: Vec<(Text, Text)>, w2: Vec<(Text, bool)>, w3: Vec<(Text, Text)>, w4: Vec<(Text, Vec<Text>)>)
      modifies p
      ensures EntriesOf(w1, configValue)
      ensures EntriesOf(w2, boolValue)
      ensures EntriesOf(w3, stringValue)
      ensures EntriesOf(w4, stringArrayValue)
      ensures p.unread == old(p.unread) + (PutMap(Str, w1, []) + PutMap(Bool, w2, [])
                                           + PutMap(Str, w3, []) + PutMap(PutTexts, w4, []))
    {
      hide PutMap, Writes, EntriesOf;
      ValuesWrite();
      ghost var start := p.unread;
      w1 := WriteMap(p, Str, configValue);
      ghost var a1 := PutMap(Str, w1, []);
      w2 := WriteMap(p, Bool, boolValue);
      Regroup(start, a1, PutMap(Bool, w2, []));
      ghost var a2 := a1 + PutMap(Bool, w2, []);
      w3 := WriteMap(p, Str, stringValue);
      Regroup(start, a2, PutMap(Str, w3, []));
      ghost var a3 := a2 + PutMap(Str, w3, []);
      w4 := WriteMap(p, PutTexts, stringArrayValue);
      Regroup(start, a3, PutMap(PutTexts, w4, []));
    }

    method WriteTail(p: Parcel)
      returns (w1: Vec<(Text, Word)>, w2: Vec<(Text, Vec<Word>)>, w3: Vec<(Text, Int64)>, w4: Vec<(Text, Vec<Int64>)>)
      modifies p
      ensures EntriesOf(w1, intValue)
      ensures EntriesOf(w2, intArrayValue)
      ensures EntriesOf(w3, longValue)
      ensures EntriesOf(w4, longArrayValue)
      ensures p.unread == old(p.unread) + (PutMap(Int, w1, []) + PutMap(PutInts, w2, [])
                                           + PutMap(Long, w3, []) + PutMap(PutLongs, w4, []))
    {
      hide PutMap, Writes, EntriesOf;
      ValuesWrite();
      ghost var start := p.unread;
      w1 := WriteMap(p, Int, intValue);
      ghost var a1 := PutMap(Int, w1, []);
      w2 := WriteMap(p, PutInts, intArrayValue);
      Regroup(start, a1, PutMap(PutInts, w2, []));
      ghost var a2 := a1 + PutMap(PutInts, w2, []);
      w3 := WriteMap(p, Long, longValue);
      Regroup(start, a2, PutMap(Long, w3, []));
      ghost var a3 := a2 + PutMap(Long, w3, []);
      w4 := WriteMap(p, PutLongs, longArrayValue);
      Regroup(start, a3, PutMap(PutLongs, w4, []));
    }

    /** Writes the eight maps; `w` is the order that was taken. */
    method Marshalling(p: Parcel) returns (w: Listed)
      modifies p
      ensures Lists(w, Value())
      ensures p.unread == old(p.unread) + PutConfig(w, [])
    {
      hide PutMap, EntriesOf, PutConfig;
      ghost var start := p.unread;
      var w1, w2, w3, w4 := WriteHead(p);
      var w5, w6, w7, w8 := WriteTail(p);
      w := Listed(w1, w2, w3, w4, w5, w6, w7, w8);
      Regroup(start, HeadWords(w), TailWords(w));
      ConfigWrites(w, []);
    }

    method ReadHead(p: Parcel) returns (ok: bool)
      modifies this, p
      ensures Parsed(Value(), Cursor(p.unread, ok)) == NextHead(old(Value()), Cursor(old(p.unread), true))
    {
      hide NextMap;
      ok, configValue := ReadMap(p, LaxText, First, configValue);
      if !ok {
        return;
      }
      ok, boolValue := ReadMap(p, LaxBool, Last, boolValue);
      if !ok {
        return;
      }
      ok, stringValue := ReadMap(p, LaxText, First, stringValue);
      if !ok {
        return;
      }
      ok, stringArrayValue := ReadMap(p, LaxTexts, Last, stringArrayValue);
    }

    method ReadTail(p: Parcel) returns (ok: bool)
      modifies this, p
      ensures Parsed(Value(), Cursor(p.unread, ok)) == NextTail(old(Value()), Cursor(old(p.unread), true))
    {
      hide NextMap;
      ok, intValue := ReadMap(p, LaxInt, Last, intValue);
      if !ok {
        return;
      }
      ok, intArrayValue := ReadMap(p, LaxInts, Last, intArrayValue);
      if !ok {
        return;
      }
      ok, longValue := ReadMap(p, LaxLong, Last, longValue);
      if !ok {
        return;
      }
      ok, longArrayValue := ReadMap(p, LaxLongs, Last, longArrayValue);
    }

    /** Reads the eight maps, giving up at the first whose size is refused. */
    method ReadFromParcel(p: Parcel) returns (ok: bool)
      modifies this, p
      ensures Parsed(Value(), Cursor(p.unread, ok)) == NextConfig(old(Value()), Cursor(old(p.unread), true))
    {
      hide NextMap;
      ok := ReadHead(p);
      if !ok {
        return;
      }
      ok := ReadTail(p);
    }
  }
}

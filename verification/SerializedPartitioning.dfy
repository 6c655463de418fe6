/** The wire format of connection maps: which rank of the other participant shares which vertices. */
module SerializedPartitioning {
  import opened OrderedMaps

  /** A rank and its vertex IDs. */
  type Entry = Pair<seq<int>>

  type ConnectionMap = seq<Entry>

  predicate NoDuplicates(s: seq<int>) { forall i, j :: 0 <= i < j < |s| ==> s[i] != s[j] }

  // ----- the format -----

  function EncodeEntry(e: Entry): seq<int> { [e.rank, |e.value|] + e.value }

  function EncodeEntries(es: seq<Entry>): seq<int> {
    if es == [] then [] else EncodeEntry(es[0]) + EncodeEntries(es[1..])
  }

  function Encode(m: ConnectionMap): seq<int> { [|m|] + EncodeEntries(m) }

  /** `c` consists of exactly `n` entries. */
  predicate ValidEntries(c: seq<int>, n: int) {
    if n <= 0 then c == []
    else
      && |c| >= 2 && c[0] >= 0 && 0 <= c[1] <= |c| - 2
      && NoDuplicates(c[2..2 + c[1]]) && ValidEntries(c[2 + c[1]..], n - 1)
  }

  /** `assertValid` */
  predicate Valid(content: seq<int>) { |content| > 1 && content[0] >= 0 && ValidEntries(content[1..], content[0]) }

  function Entries(c: seq<int>, n: int): (es: seq<Entry>)
    requires ValidEntries(c, n)
  {
    if n <= 0 then [] else [Pair(c[0], c[2..2 + c[1]])] + Entries(c[2 + c[1]..], n - 1)
  }

  function Decode(content: seq<int>): ConnectionMap
    requires Valid(content)
  {
    EmplaceAll(Entries(content[1..], content[0]))
  }

  predicate ValidMap(m: ConnectionMap) {
    Ascending(m) && forall i :: 0 <= i < |m| ==> m[i].rank >= 0 && NoDuplicates(m[i].value)
  }

  // ----- round trips -----

  lemma EncodeCons(e: Entry, es: seq<Entry>)
    ensures EncodeEntries([e] + es) == EncodeEntry(e) + EncodeEntries(es)
  {
    assert ([e] + es)[1..] == es;
  }

  /** The first entry can be read back from what it was encoded to. */
  lemma ReadBack(e: Entry, rest: seq<int>)
    ensures var c := EncodeEntry(e) + rest;
            |c| >= 2 && c[0] == e.rank && c[1] == |e.value| && c[2..2 + c[1]] == e.value && c[2 + c[1]..] == rest
  {
  }

  lemma {:induction false} EncodedEntries(es: seq<Entry>)
    requires forall i :: 0 <= i < |es| ==> es[i].rank >= 0 && NoDuplicates(es[i].value)
    ensures ValidEntries(EncodeEntries(es), |es|) && Entries(EncodeEntries(es), |es|) == es
  {
    if es != [] {
      EncodedEntries(es[1..]);
      ReadBack(es[0], EncodeEntries(es[1..]));
      assert es == [es[0]] + es[1..];
    }
  }

  lemma FirstEntry(c: seq<int>)
    requires |c| >= 2 && 0 <= c[1] <= |c| - 2
    ensures EncodeEntry(Pair(c[0], c[2..2 + c[1]])) + c[2 + c[1]..] == c
  {
  }

  lemma EncodeFirst(c: seq<int>, es: seq<Entry>)
    requires |c| >= 2 && 0 <= c[1] <= |c| - 2 && EncodeEntries(es) == c[2 + c[1]..]
    ensures EncodeEntries([Pair(c[0], c[2..2 + c[1]])] + es) == c
  {
    EncodeCons(Pair(c[0], c[2..2 + c[1]]), es);
    FirstEntry(c);
  }

  lemma {:induction false} DecodedEntries(c: seq<int>, n: int)
    requires ValidEntries(c, n)
    ensures EncodeEntries(Entries(c, n)) == c && |Entries(c, n)| == if n <= 0 then 0 else n
    decreases n
  {
    if n > 0 {
      var rest := c[2 + c[1]..];
      DecodedEntries(rest, n - 1);
      EncodeFirst(c, Entries(rest, n - 1));
    }
  }

  /** Decoding an encoded map returns it, and the encoding is valid unless the map is empty. */
  lemma ConnectionMapRoundTrip(m: ConnectionMap)
    requires ValidMap(m)
    ensures Valid(Encode(m)) <==> m != []
    ensures m != [] ==> Decode(Encode(m)) == m
  {
    if m == [] {
      assert Encode(m) == [0];
    } else {
      EncodedEntries(m);
      EncodeCons(m[0], m[1..]);
      assert m == [m[0]] + m[1..];
      assert Encode(m)[1..] == EncodeEntries(m);
      EmplaceAllSorted(m);
    }
  }

  /** Valid content is what its map encodes to exactly if its ranks ascend. */
  lemma ConnectionMapCanonical(content: seq<int>)
    requires Valid(content)
    ensures Encode(Decode(content)) == content <==> Ascending(Entries(content[1..], content[0]))
  {
    var es := Entries(content[1..], content[0]);
    DecodedEntries(content[1..], content[0]);
    EmplaceAllAscends(es);
    if Ascending(es) { EmplaceAllSorted(es); }
    if Encode(Decode(content)) == content {
      assert EncodeEntries(Decode(content)) == Encode(Decode(content))[1..] == content[1..];
      SameEncoding(es, Decode(content));
    }
  }

  /** Entries are determined by their encoding. */
  lemma {:induction false} SameEncoding(a: seq<Entry>, b: seq<Entry>)
    requires EncodeEntries(a) == EncodeEntries(b)
    ensures a == b
  {
    if a != [] && b != [] {
      var c := EncodeEntries(a);
      assert c[0] == a[0].rank == b[0].rank && c[1] == |a[0].value| == |b[0].value|;
      assert c[2..2 + c[1]] == a[0].value && c[2..2 + c[1]] == b[0].value;
      assert c[2 + c[1]..] == EncodeEntries(a[1..]) && c[2 + c[1]..] == EncodeEntries(b[1..]);
      SameEncoding(a[1..], b[1..]);
      assert a == [a[0]] + a[1..] && b == [b[0]] + b[1..];
    }
  }

  // ----- what the content is -----

  /** Where the `i`-th entry begins. */
  function Offset(es: seq<Entry>, i: nat): nat
    requires i <= |es|
  {
    if i == 0 then 1 else Offset(es, i - 1) + 2 + |es[i - 1].value|
  }

  lemma {:induction false} EncodeSplit(es: seq<Entry>, i: nat)
    requires i <= |es|
    ensures EncodeEntries(es) == EncodeEntries(es[..i]) + EncodeEntries(es[i..])
    ensures |EncodeEntries(es[..i])| + 1 == Offset(es, i)
  {
    if i == 0 {
      assert es[..0] == [] && es[0..] == es;
    } else {
      EncodeSplit(es, i - 1);
      EncodeMore(es[..i - 1], es[i - 1]);
      EncodeCons(es[i - 1], es[i..]);
      assert es[..i] == es[..i - 1] + [es[i - 1]] && es[i - 1..] == [es[i - 1]] + es[i..];
      Associate(EncodeEntries(es[..i - 1]), EncodeEntry(es[i - 1]), EncodeEntries(es[i..]));
    }
  }

  lemma EntryBetween(c: seq<int>, at: nat, n: int, before: seq<int>, e: Entry, after: seq<int>)
    requires c == [n] + (before + (EncodeEntry(e) + after)) && at == 1 + |before|
    ensures at + 2 + |e.value| <= |c| && c[0] == n && c[at] == e.rank && c[at + 1] == |e.value|
    ensures c[at + 2..at + 2 + |e.value|] == e.value
  {
    assert c[at..] == EncodeEntry(e) + after;
    ReadBack(e, after);
    assert c[at..][2..2 + |e.value|] == c[at + 2..at + 2 + |e.value|];
  }

  lemma EncodeAround(m: ConnectionMap, i: nat) returns (before: seq<int>, after: seq<int>)
    requires i < |m|
    ensures EncodeEntries(m) == before + (EncodeEntry(m[i]) + after) && 1 + |before| == Offset(m, i)
  {
    before, after := EncodeEntries(m[..i]), EncodeEntries(m[i + 1..]);
    EncodeSplit(m, i);
    EncodeCons(m[i], m[i + 1..]);
    assert m[i..] == [m[i]] + m[i + 1..];
  }

  lemma EncodedLength(m: ConnectionMap)
    ensures |Encode(m)| == Offset(m, |m|)
  {
    EncodeSplit(m, |m|);
    assert m[..|m|] == m;
  }

  /** The number of entries comes first; every entry is its rank, the number of its vertices and the vertices. */
  lemma EntryLayout(m: ConnectionMap, i: nat)
    requires i < |m|
    ensures var c, at := Encode(m), Offset(m, i);
            && at + 2 + |m[i].value| <= |c| == Offset(m, |m|) && c[0] == |m|
            && c[at] == m[i].rank && c[at + 1] == |m[i].value| && c[at + 2..at + 2 + |m[i].value|] == m[i].value
  {
    EncodedLength(m);
    var before, after := EncodeAround(m, i);
    EntryBetween(Encode(m), Offset(m, i), |m|, before, m[i], after);
  }

  predicate ValidEntryList(es: seq<Entry>) { forall i :: 0 <= i < |es| ==> es[i].rank >= 0 && NoDuplicates(es[i].value) }

  lemma {:induction false} EntriesAreValid(c: seq<int>, n: int)
    requires ValidEntries(c, n)
    ensures ValidEntryList(Entries(c, n))
    decreases n
  {
    if n > 0 { EntriesAreValid(c[2 + c[1]..], n - 1); }
  }

  /** Valid content is exactly what some entries are written as: at least one, with ranks that are not negative and
      vertices that are distinct; the ranks may repeat and need not ascend. */
  lemma ValidIff(content: seq<int>)
    ensures Valid(content) <==> exists es: seq<Entry> :: es != [] && ValidEntryList(es) && content == Encode(es)
  {
    if Valid(content) {
      var es := Entries(content[1..], content[0]);
      DecodedEntries(content[1..], content[0]);
      EntriesAreValid(content[1..], content[0]);
      assert content == [content[0]] + content[1..];
      assert content == Encode(es);
    }
    if es: seq<Entry> :| es != [] && ValidEntryList(es) && content == Encode(es) {
      EncodedEntries(es);
      EncodeCons(es[0], es[1..]);
      assert es == [es[0]] + es[1..];
      assert content[1..] == EncodeEntries(es);
    }
  }

  /** Decoding takes the first entry of every rank. */
  lemma DecodeTakesFirst(content: seq<int>, es: seq<Entry>, e: Entry)
    requires es != [] && ValidEntryList(es) && content == Encode(es)
    ensures Valid(content) && (e in Decode(content) <==> IsFirst(es, e)) && Ascending(Decode(content))
  {
    ValidIff(content);
    EncodedEntries(es);
    assert content[1..] == EncodeEntries(es);
    FirstEntriesAreKept(es, e);
    EmplaceAllAscends(es);
  }

  // ----- encoder and decoder -----

  lemma Associate(a: seq<int>, b: seq<int>, c: seq<int>)
    ensures (a + b) + c == a + (b + c)
  {
  }

  lemma {:induction false} EncodeMore(es: seq<Entry>, e: Entry)
    ensures EncodeEntries(es + [e]) == EncodeEntries(es) + EncodeEntry(e)
  {
    if es == [] {
      assert es + [e] == [e] + es;
      EncodeCons(e, es);
    } else {
      var first, rest := es[0], es[1..];
      EncodeMore(rest, e);
      assert es == [first] + rest && es + [e] == [first] + (rest + [e]);
      EncodeCons(first, rest);
      EncodeCons(first, rest + [e]);
      Associate(EncodeEntry(first), EncodeEntries(rest), EncodeEntry(e));
    }
  }

  method Serialize(m: ConnectionMap) returns (content: seq<int>)
    ensures content == Encode(m)
  {
    content := [|m|];
    for i := 0 to |m|
      invariant content == [|m|] + EncodeEntries(m[..i])
    {
      EncodeMore(m[..i], m[i]);
      assert m[..i + 1] == m[..i] + [m[i]];
      content := content + [m[i].rank];
      content := content + [|m[i].value|];
      content := content + m[i].value;
    }
    assert m[..|m|] == m;
  }

  /** The entry that begins at a position. */
  lemma EntryAt(content: seq<int>, begin: nat, n: int)
    requires begin <= |content| && n > 0 && ValidEntries(content[begin..], n)
    ensures begin + 2 <= |content| && content[begin + 1] >= 0 && begin + 2 + content[begin + 1] <= |content|
    ensures var next := begin + 2 + content[begin + 1];
            && ValidEntries(content[next..], n - 1)
            && Entries(content[begin..], n)
               == [Pair(content[begin], content[begin + 2..next])] + Entries(content[next..], n - 1)
  {
    var c := content[begin..];
    assert c[2..2 + c[1]] == content[begin + 2..begin + 2 + c[1]];
    assert c[2 + c[1]..] == content[begin + 2 + c[1]..];
  }

  method ReadEntry(content: seq<int>, begin: nat, ghost n: int) returns (e: Entry, next: nat)
    requires begin <= |content| && n > 0 && ValidEntries(content[begin..], n)
    ensures begin < next <= |content| && ValidEntries(content[next..], n - 1)
    ensures Entries(content[begin..], n) == [e] + Entries(content[next..], n - 1)
  {
    EntryAt(content, begin, n);
    var rank, size := content[begin], content[begin + 1];
    next := begin + 2 + size;
    e := Pair(rank, content[begin + 2..next]);
  }

  method ToConnectionMap(content: seq<int>) returns (m: ConnectionMap)
    requires Valid(content)
    ensures m == Decode(content)
  {
    var begin, numEntries := 1, content[0];
    ghost var all, done, rest := Entries(content[1..], numEntries), [], Entries(content[1..], numEntries);
    m := [];
    for entry := 0 to numEntries
      invariant begin <= |content| && ValidEntries(content[begin..], numEntries - entry)
      invariant rest == Entries(content[begin..], numEntries - entry) && done + rest == all && m == EmplaceAll(done)
    {
      var e;
      e, begin := ReadEntry(content, begin, numEntries - entry);
      rest := Entries(content[begin..], numEntries - entry - 1);
      EmplaceLast(done, e, rest);
      m := Emplace(m, e);
      done := done + [e];
    }
    assert done == all;
  }

  /** The checks for one entry. */
  lemma ValidEntryAt(content: seq<int>, begin: nat, n: int)
    requires begin <= |content| && n > 0
    ensures ValidEntries(content[begin..], n) <==>
              && begin + 2 <= |content| && content[begin] >= 0 && content[begin + 1] >= 0
              && begin + 2 + content[begin + 1] <= |content|
              && NoDuplicates(content[begin + 2..begin + 2 + content[begin + 1]])
              && ValidEntries(content[begin + 2 + content[begin + 1]..], n - 1)
  {
    var c := content[begin..];
    if |c| >= 2 && 0 <= c[1] <= |c| - 2 {
      assert c[2..2 + c[1]] == content[begin + 2..begin + 2 + c[1]];
      assert c[2 + c[1]..] == content[begin + 2 + c[1]..];
    }
  }

  method CheckEntry(content: seq<int>, begin: nat, ghost n: int) returns (ok: bool, next: nat)
    requires begin <= |content| && n > 0
    ensures ok ==>
              && begin <= next <= |content|
              && ValidEntries(content[begin..], n) == ValidEntries(content[next..], n - 1)
    ensures !ok ==> !ValidEntries(content[begin..], n)
  {
    ValidEntryAt(content, begin, n);
    next := begin;
    if |content| < begin + 2 { return false, next; }
    var rank := content[begin];
    var size := content[begin + 1];
    if rank < 0 || size < 0 || |content| < begin + 2 + size { return false, next; }
    var ids := content[begin + 2..begin + 2 + size];
    var distinct := set id | id in ids;
    DistinctCount(ids);
    next := begin + 2 + size;
    ok := |distinct| == size;
  }

  /** The checks of `assertValid`, as a result. */
  method CheckValid(content: seq<int>) returns (valid: bool)
    ensures valid == Valid(content)
  {
    if |content| <= 1 || content[0] < 0 {
      return false;
    }
    var consumed, numEntries := 1, content[0];
    for entry := 0 to numEntries
      invariant 1 <= consumed <= |content|
      invariant ValidEntries(content[1..], numEntries) == ValidEntries(content[consumed..], numEntries - entry)
    {
      var ok;
      ok, consumed := CheckEntry(content, consumed, numEntries - entry);
      if !ok { return false; }
    }
    return consumed == |content|;
  }

  /** A set of as many elements means that there are no duplicates. */
  lemma {:induction false} DistinctCount(s: seq<int>)
    ensures |set x | x in s| <= |s|
    ensures |set x | x in s| == |s| <==> NoDuplicates(s)
  {
    if s != [] {
      var t, x := s[..|s|-1], s[|s|-1];
      DistinctCount(t);
      assert (set y | y in s) == (set y | y in t) + {x};
      if x in t {
        assert (set y | y in s) == (set y | y in t);
        var i :| 0 <= i < |t| && t[i] == x;
        assert s[i] == s[|s|-1];
      } else {
        assert NoDuplicates(t) <==> NoDuplicates(s);
      }
    }
  }
}

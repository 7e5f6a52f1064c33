/** The record array of a B+ tree page, changed in place. A null value is the payload 0. */
module PageRecords {
  import opened SortedRecords
  import opened PageLevels
  import opened BPlusTree
  import opened TreePages

  /** What `count` counts: the non-null values of the whole array. */
  function LiveCount(s: seq<Entry>): (c: nat)
    ensures c <= |s|
  {
    if s == [] then 0 else LiveCount(s[..|s| - 1]) + if s[|s| - 1].payload != 0 then 1 else 0
  }

  lemma {:induction false} LiveCountConcat(s: seq<Entry>, t: seq<Entry>)
    ensures LiveCount(s + t) == LiveCount(s) + LiveCount(t)
  {
    if t == [] {
      assert s + t == s;
    } else {
      LiveCountConcat(s, t[..|t| - 1]);
      assert (s + t)[..|s + t| - 1] == s + t[..|t| - 1];
    }
  }

  lemma {:induction false} LiveCountFull(s: seq<Entry>)
    ensures LiveCount(s) == |s| <==> !HasNull(s)
  {
    if s != [] {
      var n := |s| - 1;
      LiveCountFull(s[..n]);
      if HasNull(s[..n]) {
        var i :| 0 <= i < n && s[..n][i].payload == 0;
        assert s[i].payload == 0;
      }
      if HasNull(s) && s[n].payload != 0 {
        var i :| 0 <= i < |s| && s[i].payload == 0;
        assert s[..n][i].payload == 0;
      }
    }
  }

  lemma {:induction false} LiveCountNone(s: seq<Entry>)
    requires forall j :: 0 <= j < |s| ==> s[j].payload == 0
    ensures LiveCount(s) == 0
  {
    if s != [] {
      LiveCountNone(s[..|s| - 1]);
    }
  }

  /** Every slot behind the n live ones is null. */
  ghost predicate NullBehind(s: seq<Entry>, n: nat) {
    n <= |s| && forall j :: n <= j < |s| ==> s[j].payload == 0
  }

  /** The count is the record number exactly when no live record has the value 0. */
  lemma CountIsNumberIff(s: seq<Entry>, n: nat)
    requires NullBehind(s, n)
    ensures LiveCount(s) == n <==> !HasNull(s[..n])
  {
    assert s == s[..n] + s[n..];
    LiveCountConcat(s[..n], s[n..]);
    LiveCountFull(s[..n]);
    LiveCountNone(s[n..]);
  }

  /** After an insertion or a replacement the count agrees with the record number exactly when the payload is not 0;
      otherwise the next search in the page stops the process. */
  lemma CountAgreesIff(s: seq<Entry>, n: nat, id: nat, e: Entry, s': seq<Entry>, n': nat)
    requires NullBehind(s, n) && LiveCount(s) == n && id <= n
    requires NullBehind(s', n') && s'[..n'] == InsertedInNode(s[..n], id, e)
    ensures LiveCount(s') == n' <==> e.payload != 0
  {
    CountIsNumberIff(s, n);
    CountIsNumberIff(s', n');
    var r, r' := s[..n], s'[..n'];
    assert r'[id] == e;
    forall i | 0 <= i < |r'| && i != id ensures r'[i].payload != 0 {
      var o := if r' == InsertAt(r, id, e) && i > id then i - 1 else i;
      assert r'[i] == r[o];
    }
  }

  /** One record shifted in. */
  lemma ShiftedIs(s: seq<Entry>, s': seq<Entry>, n: nat, id: nat, e: Entry)
    requires NullBehind(s, n) && id <= n < |s| == |s'| && s'[id] == e
    requires forall j :: 0 <= j < id ==> s'[j] == s[j]
    requires forall j :: id < j <= n ==> s'[j] == s[j - 1]
    requires forall j :: n < j < |s| ==> s'[j] == s[j]
    ensures NullBehind(s', n + 1) && s'[..n + 1] == InsertAt(s[..n], id, e)
  {}

  /** The upper half moved out. */
  lemma HalvesAre(s: seq<Entry>, a: seq<Entry>, b: seq<Entry>, left: nat, right: nat)
    requires NullBehind(s, left + right) && |a| == |b| == |s|
    requires forall j :: 0 <= j < left ==> a[j] == s[j]
    requires forall j :: left <= j < left + right ==> a[j].payload == 0
    requires forall j :: left + right <= j < |s| ==> a[j] == s[j]
    requires forall j :: 0 <= j < right ==> b[j] == s[left + j]
    requires forall j :: right <= j < |s| ==> b[j].payload == 0
    ensures NullBehind(a, left) && NullBehind(b, right) && a[..left] + b[..right] == s[..left + right]
  {}

  class Records {
    const slots: array<Entry>
    var recordNum: nat

    ghost predicate Valid()
      reads this, slots
    {
      NullBehind(slots[..], recordNum)
    }

    ghost function Live(): seq<Entry>
      reads this, slots
      requires Valid()
    {
      slots[..recordNum]
    }

    constructor (cardinality: nat)
      ensures Valid() && Live() == [] && slots.Length == cardinality && fresh(slots)
    {
      slots := new Entry[cardinality](_ => Entry(0.0, 0));
      recordNum := 0;
    }

    method Count() returns (c: nat)
      ensures c == LiveCount(slots[..])
    {
      c := 0;
      for i := 0 to slots.Length
        invariant c == LiveCount(slots[..i])
      {
        assert slots[..i + 1][..i] == slots[..i];
        if slots[i].payload != 0 {
          c := c + 1;
        }
      }
      assert slots[..slots.Length] == slots[..];
    }

    /** lower_bound, with its check that the count is the record number: the process exits exactly when a live record
        has the value 0. */
    method LowerBound(key: real) returns (stopped: bool, id: nat)
      requires Valid()
      ensures stopped <==> HasNull(Live())
      ensures !stopped ==> IsLowerBound(Live(), id, key)
    {
      id := 0;
      var c := Count();
      stopped := recordNum != c;
      CountIsNumberIff(slots[..], recordNum);
      if !stopped {
        while id < recordNum && slots[id].key < key
          invariant id <= recordNum
          invariant forall j :: 0 <= j < id ==> slots[j].key < key
        {
          id := id + 1;
        }
      }
    }

    /** Shifts the records from `id` on by one and writes the new one; an index out of range changes nothing. */
    method InsertPair(id: int, e: Entry)
      requires Valid() && recordNum < slots.Length
      modifies this`recordNum, slots
      ensures Valid()
      ensures Live() == if 0 <= id <= old(recordNum) then InsertAt(old(Live()), id, e) else old(Live())
    {
      if id < 0 || id > recordNum {
        return;
      }
      ghost var before := slots[..];
      var n: int := recordNum;
      var pos: int := n - 1;
      while pos >= id
        invariant id - 1 <= pos < n && recordNum == n
        invariant forall j :: 0 <= j <= pos + 1 ==> slots[j] == before[j]
        invariant forall j :: pos + 2 <= j <= n ==> slots[j] == before[j - 1]
        invariant forall j :: n < j < slots.Length ==> slots[j] == before[j]
      {
        slots[pos + 1] := slots[pos];
        pos := pos - 1;
      }
      slots[id] := e;
      recordNum := n + 1;
      ShiftedIs(before, slots[..], n, id, e);
    }

    /** Upsert into the page: a value replaced in place, or a record inserted in key order, unless the count stops the
        process. */
    method InsertInNode(e: Entry) returns (stopped: bool, updated: bool)
      requires Valid() && recordNum < slots.Length
      modifies this`recordNum, slots
      ensures Valid() && (stopped <==> HasNull(old(Live())))
      ensures Live() == if stopped then old(Live()) else Upserted(old(Live()), e)
      ensures !stopped ==> recordNum == old(recordNum) + if updated then 0 else 1
    {
      updated := false;
      var id;
      stopped, id := LowerBound(e.key);
      if stopped {
        return;
      }
      InsertedIsUpserted(Live(), id, e);
      hide Upserted;
      updated := slots[id].key == e.key && slots[id].payload != 0;
      if updated {
        assert id < recordNum;
        slots[id] := e;
        assert Live() == old(Live())[id := e];
      } else {
        assert id < recordNum ==> Live()[id].payload != 0;
        InsertPair(id, e);
      }
    }

    /** Moves the upper half to an empty page; the vacated slots keep their keys but lose their values. */
    method SplitInto(sibling: Records)
      requires Valid() && sibling.Valid() && sibling.recordNum == 0
      requires sibling != this && sibling.slots != slots && sibling.slots.Length == slots.Length
      modifies this`recordNum, slots, sibling`recordNum, sibling.slots
      ensures Valid() && sibling.Valid()
      ensures sibling.recordNum == old(recordNum) / 2 && recordNum == old(recordNum) - old(recordNum) / 2
      ensures Live() + sibling.Live() == old(Live())
    {
      var right := recordNum / 2;
      var left := recordNum - right;
      for k := 0 to right
        invariant recordNum == left + right - k && sibling.recordNum == k
        invariant forall j :: 0 <= j < left ==> slots[j] == old(slots[j])
        invariant forall j :: left <= j < left + k ==> slots[j].payload == 0
        invariant forall j :: left + k <= j < slots.Length ==> slots[j] == old(slots[j])
        invariant forall j :: 0 <= j < k ==> sibling.slots[j] == old(slots[left + j])
        invariant forall j :: k <= j < slots.Length ==> sibling.slots[j].payload == 0
      {
        sibling.slots[k] := slots[k + left];
        slots[k + left] := slots[k + left].(payload := 0);
        sibling.recordNum := sibling.recordNum + 1;
        recordNum := recordNum - 1;
      }
      HalvesAre(old(slots[..]), slots[..], sibling.slots[..], left, right);
    }
  }
}

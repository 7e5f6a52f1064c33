/** Records sorted by key: upsert, lookup and range, and how they act on a part. */
module SortedRecords {
  import opened Wrappers

  datatype Entry = Entry(key: real, payload: nat)

  ghost predicate SortedByKey(o: seq<Entry>) {
    forall i, j :: 0 <= i < j < |o| ==> o[i].key < o[j].key
  }

  ghost predicate HasKey(o: seq<Entry>, key: real) {
    exists i :: 0 <= i < |o| && o[i].key == key
  }

  /** Upsert into the sorted records. */
  function Upserted(o: seq<Entry>, e: Entry): seq<Entry> {
    if o == [] then [e]
    else if e.key < o[0].key then [e] + o
    else if e.key == o[0].key then [e] + o[1..]
    else [o[0]] + Upserted(o[1..], e)
  }

  /** The payload of the first record with the key. */
  function FindSorted(o: seq<Entry>, key: real): Option<nat> {
    if o == [] then None
    else if o[0].key == key then Some(o[0].payload)
    else FindSorted(o[1..], key)
  }

  lemma {:induction false} UpsertedContents(o: seq<Entry>, e: Entry, x: Entry)
    requires SortedByKey(o)
    ensures x in Upserted(o, e) <==> if x.key == e.key then x == e else x in o
  {
    if o != [] {
      UpsertedContents(o[1..], e, x);
      assert x in o <==> x == o[0] || x in o[1..];
      var u := Upserted(o, e);
      if e.key < o[0].key {
        assert x in u <==> x == e || x in o;
      } else if e.key == o[0].key {
        assert x in u <==> x == e || x in o[1..];
      } else {
        assert x in u <==> x == o[0] || x in Upserted(o[1..], e);
      }
    }
  }

  lemma {:induction false} UpsertedSorted(o: seq<Entry>, e: Entry)
    requires SortedByKey(o)
    ensures SortedByKey(Upserted(o, e))
    ensures |Upserted(o, e)| == |o| + if HasKey(o, e.key) then 0 else 1
  {
    if o != [] {
      UpsertedSorted(o[1..], e);
      var u := Upserted(o, e);
      if o[0].key < e.key {
        forall i | 1 <= i < |u| ensures o[0].key < u[i].key {
          assert u[i] in Upserted(o[1..], e);
          UpsertedContents(o[1..], e, u[i]);
        }
        assert HasKey(o, e.key) <==> HasKey(o[1..], e.key) by {
          if HasKey(o, e.key) {
            var i :| 0 <= i < |o| && o[i].key == e.key;
            assert o[1..][i - 1].key == e.key;
          }
        }
      } else if o[0].key == e.key {
        assert HasKey(o, e.key);
      }
    }
  }

  lemma {:induction false} FindSortedIs(o: seq<Entry>, key: real, p: nat)
    requires SortedByKey(o)
    ensures FindSorted(o, key) == Some(p) <==> Entry(key, p) in o
  {
    if o != [] {
      FindSortedIs(o[1..], key, p);
      assert Entry(key, p) in o <==> Entry(key, p) == o[0] || Entry(key, p) in o[1..];
    }
  }

  // ----- ranges

  predicate InRange(key: real, lo: real, hi: real) {
    lo <= key <= hi
  }

  ghost predicate NoDuplicates(es: seq<Entry>) {
    forall i, j :: 0 <= i < j < |es| ==> es[i].key != es[j].key
  }

  /** A scan of the records of a tree: those without a value are skipped. */
  function FilterShown(o: seq<Entry>, lo: real, hi: real): seq<Entry> {
    if o == [] then []
    else (if InRange(o[0].key, lo, hi) && o[0].payload != 0 then [o[0]] else []) + FilterShown(o[1..], lo, hi)
  }

  lemma {:induction false} FilterShownIs(o: seq<Entry>, lo: real, hi: real)
    requires SortedByKey(o)
    ensures SortedByKey(FilterShown(o, lo, hi))
    ensures forall e :: e in FilterShown(o, lo, hi) <==> e in o && InRange(e.key, lo, hi) && e.payload != 0
  {
    if o != [] {
      FilterShownIs(o[1..], lo, hi);
      var rest := FilterShown(o[1..], lo, hi);
      forall e ensures e in o <==> e == o[0] || e in o[1..] {}
      forall i | 0 <= i < |rest| ensures o[0].key < rest[i].key {
        assert rest[i] in rest;
      }
    }
  }

  // ----- a sequence in three parts

  lemma {:induction false} UpsertPrefix(a: seq<Entry>, b: seq<Entry>, e: Entry)
    requires forall x :: x in a ==> x.key < e.key
    ensures Upserted(a + b, e) == a + Upserted(b, e)
  {
    if a == [] {
      assert a + b == b;
    } else {
      assert a[0] in a;
      UpsertPrefix(a[1..], b, e);
      assert (a + b)[1..] == a[1..] + b;
    }
  }

  lemma {:induction false} UpsertSuffix(b: seq<Entry>, c: seq<Entry>, e: Entry)
    requires forall x :: x in c ==> e.key < x.key
    ensures Upserted(b + c, e) == Upserted(b, e) + c
  {
    if b == [] {
      assert b + c == c;
      assert c != [] ==> c[0] in c;
    } else {
      assert (b + c)[0] == b[0] && (b + c)[1..] == b[1..] + c;
      if e.key < b[0].key {
        assert [e] + (b + c) == [e] + b + c;
      } else if e.key == b[0].key {
        assert [e] + (b[1..] + c) == [e] + b[1..] + c;
      } else {
        UpsertSuffix(b[1..], c, e);
        assert [b[0]] + (Upserted(b[1..], e) + c) == [b[0]] + Upserted(b[1..], e) + c;
      }
    }
  }

  lemma {:induction false} FindPrefix(a: seq<Entry>, b: seq<Entry>, key: real)
    requires forall x :: x in a ==> x.key < key
    ensures FindSorted(a + b, key) == FindSorted(b, key)
  {
    if a == [] {
      assert a + b == b;
    } else {
      assert a[0] in a;
      FindPrefix(a[1..], b, key);
      assert (a + b)[1..] == a[1..] + b;
    }
  }

  lemma {:induction false} FindNothing(c: seq<Entry>, key: real)
    requires forall x :: x in c ==> x.key != key
    ensures FindSorted(c, key) == None
  {
    if c != [] {
      assert c[0] in c;
      FindNothing(c[1..], key);
    }
  }

  lemma {:induction false} FindSuffix(b: seq<Entry>, c: seq<Entry>, key: real)
    requires forall x :: x in c ==> key < x.key
    ensures FindSorted(b + c, key) == FindSorted(b, key)
  {
    if b == [] {
      assert b + c == c;
      FindNothing(c, key);
    } else {
      FindSuffix(b[1..], c, key);
      assert (b + c)[1..] == b[1..] + c;
    }
  }

  lemma {:induction false} FilterConcat(a: seq<Entry>, b: seq<Entry>, lo: real, hi: real)
    ensures FilterShown(a + b, lo, hi) == FilterShown(a, lo, hi) + FilterShown(b, lo, hi)
  {
    if a == [] {
      assert a + b == b;
    } else {
      assert (a + b)[0] == a[0] && (a + b)[1..] == a[1..] + b;
      hide InRange;
      FilterConcat(a[1..], b, lo, hi);
    }
  }

  lemma {:induction false} FilterNothing(a: seq<Entry>, lo: real, hi: real)
    requires forall x :: x in a ==> x.key < lo
    ensures FilterShown(a, lo, hi) == []
  {
    if a != [] {
      assert a[0] in a;
      FilterNothing(a[1..], lo, hi);
    }
  }
}

/**
 * Grouping of the provider's flat ETA list into a dictionary from stop id
 * to the predicted arrivals recorded for that stop.
 */
module EtaGrouping {

  /** One record of the ETA list: the stop it is for and a predicted arrival, in milliseconds since the epoch. */
  datatype EtaRecord = EtaRecord(stop: string, eta: int)

  /** The dictionary the grouping fills: stop id to arrivals. */
  type EtaMap = map<string, seq<int>>

  /** The stop ids that occur in the records. */
  function StopsOf(rs: seq<EtaRecord>): set<string>
  {
    set i | 0 <= i < |rs| :: rs[i].stop
  }

  /** The arrivals recorded for stop k, in the order of the records. */
  function ArrivalsAt(rs: seq<EtaRecord>, k: string): seq<int>
  {
    if rs == [] then []
    else ArrivalsAt(rs[..|rs| - 1], k) + (if rs[|rs| - 1].stop == k then [rs[|rs| - 1].eta] else [])
  }

  /** Reference definition of the grouping: every stop that occurs maps to its own arrivals. */
  function Grouping(rs: seq<EtaRecord>): EtaMap
  {
    map k | k in StopsOf(rs) :: ArrivalsAt(rs, k)
  }

  /** One step of the loop: create the record's list when the key is missing, then push its arrival. */
  function Insert(m: EtaMap, r: EtaRecord): EtaMap
  {
    m[r.stop := (if r.stop in m then m[r.stop] else []) + [r.eta]]
  }

  /** The grouping loop, filling the dictionary record by record. */
  method GroupEtas(rs: seq<EtaRecord>) returns (m: EtaMap)
    ensures m == Grouping(rs)
  {
    m := map[];
    var i := 0;
    while i < |rs|
      invariant 0 <= i <= |rs|
      invariant m == Grouping(rs[..i])
    {
      var r := rs[i];
      if r.stop !in m {
        m := m[r.stop := []];
      }
      m := m[r.stop := m[r.stop] + [r.eta]];
      assert rs[..i + 1] == rs[..i] + [r];
      GroupingSnoc(rs[..i], r);
      i := i + 1;
    }
    assert rs[..|rs|] == rs;
  }

  lemma ArrivalsSnoc(s: seq<EtaRecord>, r: EtaRecord, k: string)
    ensures ArrivalsAt(s + [r], k) == ArrivalsAt(s, k) + (if r.stop == k then [r.eta] else [])
  {
    assert (s + [r])[..|s|] == s;
  }

  lemma StopsSnoc(s: seq<EtaRecord>, r: EtaRecord)
    ensures StopsOf(s + [r]) == StopsOf(s) + {r.stop}
  {
    var t := s + [r];
    forall x | x in StopsOf(t) ensures x in StopsOf(s) + {r.stop} {
      var i :| 0 <= i < |t| && t[i].stop == x;
      if i < |s| { assert s[i] == t[i]; }
    }
    forall x | x in StopsOf(s) + {r.stop} ensures x in StopsOf(t) {
      if x == r.stop {
        assert t[|s|].stop == x;
      } else {
        var i :| 0 <= i < |s| && s[i].stop == x;
        assert t[i] == s[i];
      }
    }
  }

  /** A stop's list is non-empty exactly when some record is for that stop. */
  lemma {:induction false} ArrivalsNonEmpty(rs: seq<EtaRecord>, k: string)
    ensures ArrivalsAt(rs, k) != [] <==> k in StopsOf(rs)
  {
    if rs != [] {
      var s, r := rs[..|rs| - 1], rs[|rs| - 1];
      assert rs == s + [r];
      ArrivalsNonEmpty(s, k);
      StopsSnoc(s, r);
      ArrivalsSnoc(s, r, k);
    }
  }

  /** Adding one record to the input is one step of the loop on the dictionary. */
  lemma GroupingSnoc(s: seq<EtaRecord>, r: EtaRecord)
    ensures Grouping(s + [r]) == Insert(Grouping(s), r)
  {
    var m, m' := Grouping(s), Grouping(s + [r]);
    StopsSnoc(s, r);
    assert m'.Keys == Insert(m, r).Keys;
    forall k | k in m' ensures m'[k] == Insert(m, r)[k] {
      ArrivalsSnoc(s, r, k);
      if k == r.stop && k !in m {
        ArrivalsNonEmpty(s, k);
      }
    }
  }

  lemma {:induction false} ArrivalsAppend(a: seq<EtaRecord>, b: seq<EtaRecord>, k: string)
    ensures ArrivalsAt(a + b, k) == ArrivalsAt(a, k) + ArrivalsAt(b, k)
  {
    if b == [] {
      assert a + b == a;
    } else {
      var b', x := b[..|b| - 1], b[|b| - 1];
      assert b == b' + [x];
      assert a + b == (a + b') + [x];
      ArrivalsAppend(a, b', k);
      ArrivalsSnoc(a + b', x, k);
      ArrivalsSnoc(b', x, k);
    }
  }

  /** No key of the dictionary maps to an empty list. */
  lemma NoEmptyList(rs: seq<EtaRecord>)
    ensures forall k :: k in Grouping(rs) ==> Grouping(rs)[k] != []
  {
    forall k | k in Grouping(rs) {
      ArrivalsNonEmpty(rs, k);
    }
  }

  /** How many records came before record i for the same stop: its place in that stop's list. */
  function Rank(rs: seq<EtaRecord>, i: nat): nat
    requires i < |rs|
  {
    |ArrivalsAt(rs[..i], rs[i].stop)|
  }

  /** Every record's arrival is in its own stop's list, at the place given by the earlier records for that stop. */
  lemma RecordListed(rs: seq<EtaRecord>, i: nat)
    requires i < |rs|
    ensures rs[i].stop in Grouping(rs)
    ensures Rank(rs, i) < |Grouping(rs)[rs[i].stop]|
    ensures Grouping(rs)[rs[i].stop][Rank(rs, i)] == rs[i].eta
  {
    var k := rs[i].stop;
    assert rs == rs[..i + 1] + rs[i + 1..];
    assert rs[..i + 1] == rs[..i] + [rs[i]];
    ArrivalsAppend(rs[..i + 1], rs[i + 1..], k);
    ArrivalsSnoc(rs[..i], rs[i], k);
    assert k in StopsOf(rs);
  }

  /** Lists keep input order: of two records for one stop, the earlier one comes first in the list. */
  lemma OrderKept(rs: seq<EtaRecord>, i: nat, j: nat)
    requires i < j < |rs| && rs[i].stop == rs[j].stop
    ensures Rank(rs, i) < Rank(rs, j)
  {
    var k := rs[i].stop;
    assert rs[..j] == rs[..i + 1] + rs[i + 1..j];
    assert rs[..i + 1] == rs[..i] + [rs[i]];
    ArrivalsAppend(rs[..i + 1], rs[i + 1..j], k);
    ArrivalsSnoc(rs[..i], rs[i], k);
  }

  /** The head of a stop's list is the arrival of the first record for that stop. */
  lemma FirstArrival(rs: seq<EtaRecord>, i: nat)
    requires i < |rs|
    requires forall j :: 0 <= j < i ==> rs[j].stop != rs[i].stop
    ensures rs[i].stop in Grouping(rs) && |Grouping(rs)[rs[i].stop]| > 0
    ensures Grouping(rs)[rs[i].stop][0] == rs[i].eta
  {
    var k := rs[i].stop;
    assert k !in StopsOf(rs[..i]);
    ArrivalsNonEmpty(rs[..i], k);
    RecordListed(rs, i);
  }

  /** The number of arrivals held by all lists of a dictionary together. */
  ghost function Total(m: EtaMap): nat
    decreases |m|
  {
    if m == map[] then 0
    else
      var k :| k in m;
      assert |m - {k}| < |m| by {
        assert (m - {k}).Keys == m.Keys - {k};
      }
      |m[k]| + Total(m - {k})
  }

  lemma TotalRemove(m: EtaMap, k: string)
    requires k in m
    ensures Total(m) == |m[k]| + Total(m - {k})
    decreases |m|
  {
    var j :| j in m && Total(m) == |m[j]| + Total(m - {j});
    if j != k {
      assert (m - {j}).Keys == m.Keys - {j};
      assert (m - {k}).Keys == m.Keys - {k};
      TotalRemove(m - {j}, k);
      TotalRemove(m - {k}, j);
      assert m - {j} - {k} == m - {k} - {j};
    }
  }

  lemma TotalInsert(m: EtaMap, r: EtaRecord)
    ensures Total(Insert(m, r)) == Total(m) + 1
  {
    var m' := Insert(m, r);
    TotalRemove(m', r.stop);
    assert m' - {r.stop} == m - {r.stop};
    if r.stop in m {
      TotalRemove(m, r.stop);
    } else {
      assert m - {r.stop} == m;
    }
  }

  /** The lists together hold exactly as many arrivals as there are records. */
  lemma {:induction false} TotalGrouping(rs: seq<EtaRecord>)
    ensures Total(Grouping(rs)) == |rs|
  {
    if rs == [] {
      assert Grouping(rs) == map[];
    } else {
      var s, r := rs[..|rs| - 1], rs[|rs| - 1];
      assert rs == s + [r];
      TotalGrouping(s);
      GroupingSnoc(s, r);
      TotalInsert(Grouping(s), r);
    }
  }
}

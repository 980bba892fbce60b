/** Joining strings with a separator (JavaScript's `Array.prototype.join`),
    together with a description of where each part lands in the result. */
module Text {

  /** The parts concatenated with `sep` between consecutive parts: no
      separator for zero or one part. */
  function Join<T>(parts: seq<seq<T>>, sep: seq<T>): (r: seq<T>)
    ensures |parts| == 0 ==> |r| == 0
    ensures |parts| > 0 ==> |r| + |sep| == Offset(parts, sep, |parts|)
  {
    if |parts| == 0 then []
    else if |parts| == 1 then parts[0]
    else
      OffsetOfTail(parts, sep, |parts|);
      parts[0] + sep + Join(parts[1..], sep)
  }

  /** Where `parts[k]` starts in `Join(parts, sep)`: the lengths of the parts
      before it, each followed by one separator. */
  function Offset<T>(parts: seq<seq<T>>, sep: seq<T>, k: nat): nat
    requires k <= |parts|
  {
    if k == 0 then 0 else Offset(parts, sep, k - 1) + |parts[k - 1]| + |sep|
  }

  /** Offsets into the tail of `parts` are the offsets into `parts`, less the
      first part and its separator. */
  lemma {:induction false} OffsetOfTail<T>(parts: seq<seq<T>>, sep: seq<T>, k: nat)
    requires 1 <= k <= |parts|
    ensures Offset(parts, sep, k) == |parts[0]| + |sep| + Offset(parts[1..], sep, k - 1)
  {
    if k > 1 {
      OffsetOfTail(parts, sep, k - 1);
    }
  }

  /** Part `k` of the list occupies the positions of the joined string from
      `Offset(parts, sep, k)` on. */
  lemma {:induction false} PartAt<T>(parts: seq<seq<T>>, sep: seq<T>, k: nat)
    requires k < |parts|
    ensures Offset(parts, sep, k) + |parts[k]| <= |Join(parts, sep)|
    ensures Join(parts, sep)[Offset(parts, sep, k)..Offset(parts, sep, k) + |parts[k]|] == parts[k]
  {
    var r := Join(parts, sep);
    if |parts| > 1 {
      var head := parts[0] + sep;
      var tail := Join(parts[1..], sep);
      assert r == head + tail;
      if k > 0 {
        PartAt(parts[1..], sep, k - 1);
        OffsetOfTail(parts, sep, k);
        var o := Offset(parts[1..], sep, k - 1);
        assert parts[1..][k - 1] == parts[k];
        SliceAfterPrefix(head, tail, o, o + |parts[k]|);
      } else {
        assert r[..|parts[0]|] == parts[0];
      }
    }
  }

  /** A slice of the part after a prefix, read in the whole sequence. */
  lemma SliceAfterPrefix<T>(a: seq<T>, b: seq<T>, i: nat, j: nat)
    requires i <= j <= |b|
    ensures (a + b)[|a| + i..|a| + j] == b[i..j]
  {
  }

  /** Every part after the first is immediately preceded by one separator. */
  lemma {:induction false} SeparatorBefore<T>(parts: seq<seq<T>>, sep: seq<T>, k: nat)
    requires 0 < k < |parts|
    ensures |sep| <= Offset(parts, sep, k) <= |Join(parts, sep)|
    ensures Join(parts, sep)[Offset(parts, sep, k) - |sep|..Offset(parts, sep, k)] == sep
  {
    var tail := Join(parts[1..], sep);
    var h := |parts[0]| + |sep|;
    assert Join(parts, sep) == parts[0] + sep + tail;
    OffsetOfTail(parts, sep, k);
    if k > 1 {
      SeparatorBefore(parts[1..], sep, k - 1);
      var o := Offset(parts[1..], sep, k - 1);
      assert Join(parts, sep)[h + o - |sep|..h + o] == tail[o - |sep|..o];
    }
  }

  /** Joining a concatenation of two non-empty lists puts one separator
      between the two joined halves. */
  lemma {:induction false} JoinAppend<T>(a: seq<seq<T>>, b: seq<seq<T>>, sep: seq<T>)
    requires |a| > 0 && |b| > 0
    ensures Join(a + b, sep) == Join(a, sep) + sep + Join(b, sep)
  {
    var ab := a + b;
    assert ab[0] == a[0];
    if |a| > 1 {
      assert ab[1..] == a[1..] + b;
      calc {
        Join(ab, sep);
        a[0] + sep + Join(a[1..] + b, sep);
        { JoinAppend(a[1..], b, sep); }
        a[0] + sep + (Join(a[1..], sep) + sep + Join(b, sep));
        (a[0] + sep + Join(a[1..], sep)) + sep + Join(b, sep);
        Join(a, sep) + sep + Join(b, sep);
      }
    } else {
      assert ab[1..] == b;
      assert Join(ab, sep) == a[0] + sep + Join(b, sep);
    }
  }
}

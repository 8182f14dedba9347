/**
  The `USN` header: a unique service name made of one `FieldMap`, optionally
  followed by `::` and a second one (`uuid:device-UUID::upnp:rootdevice`).
 */
module UsnHeader {
  import opened Wrappers
  import opened Bytes
  import opened Field

  const USN_HEADER_NAME: string := "USN"

  /** Separator between the two pairs of a USN value. */
  const FIELD_PAIR_SEPARATOR: seq<byte> := [COLON, COLON]

  datatype USN = USN(first: FieldMap, second: Option<FieldMap>)

  /** The two byte strings `partition_pairs` hands back: the first pair and, if non-empty, the rest. */
  type Pairs = (seq<byte>, Option<seq<byte>>)

  // ---------------------------------------------------------------------------
  // partition_pairs, specified on values

  /**
    The byte the partition closure compares `s[i]` with. It starts as the first
    byte itself, so `s[0]` is compared with itself.
   */
  function LastByte(s: seq<byte>, i: nat): byte
    requires i < |s|
  {
    if i == 0 then s[0] else s[i - 1]
  }

  /** Byte `i` completes the separator: it and the byte before it (or itself, at 0) are colons. */
  predicate IsSeparator(s: seq<byte>, i: nat)
    requires i < |s|
  {
    LastByte(s, i) == COLON && s[i] == COLON
  }

  /** The least index at or after `from` that completes a separator. */
  function FirstSeparator(s: seq<byte>, from: nat): (r: Option<nat>)
    requires from <= |s|
    decreases |s| - from
    ensures r.Some? ==> from <= r.value < |s| && IsSeparator(s, r.value)
    ensures r.Some? ==> forall j | from <= j < r.value :: !IsSeparator(s, j)
    ensures r.None? ==> forall j | from <= j < |s| :: !IsSeparator(s, j)
  {
    if from == |s| then None
    else if IsSeparator(s, from) then Some(from)
    else FirstSeparator(s, from + 1)
  }

  /** A separator with none before it is the first one. */
  lemma FirstSeparatorAt(s: seq<byte>, k: nat)
    requires k < |s| && IsSeparator(s, k)
    requires forall j | 0 <= j < k :: !IsSeparator(s, j)
    ensures FirstSeparator(s, 0) == Some(k)
  {
    var r := FirstSeparator(s, 0);
  }

  /** Without any separator there is no first one. */
  lemma NoSeparator(s: seq<byte>)
    requires forall j | 0 <= j < |s| :: !IsSeparator(s, j)
    ensures FirstSeparator(s, 0) == None
  {
    var r := FirstSeparator(s, 0);
  }

  /** Pop one trailing colon, if there is one. */
  function DropColon(f: seq<byte>): seq<byte> {
    if f != [] && f[|f| - 1] == COLON then f[..|f| - 1] else f
  }

  /** `n` rounds of popping a trailing colon. */
  function StripColons(f: seq<byte>, n: nat): seq<byte> {
    if n == 0 then f else DropColon(StripColons(f, n - 1))
  }

  /**
    What `partition_pairs` computes: everything up to and including the first
    separator goes to the first part, the rest to the second; then at most two
    colons are popped off the end of the first part.
   */
  function Partition(s: seq<byte>): Option<Pairs> {
    if s == [] then None
    else
      var first := StripColons(Split(s).0, 2);
      var second := Split(s).1;
      if first == [] then None
      else if second == [] then Some((first, None))
      else Some((first, Some(second)))
  }

  /** The two vectors the partition closure fills, before any colon is popped. */
  function Split(s: seq<byte>): (seq<byte>, seq<byte>) {
    match FirstSeparator(s, 0)
    case None => (s, [])
    case Some(k) => (s[..k + 1], s[k + 1..])
  }

  /** A byte string with no `::` inside and no colon at either end. */
  predicate PairFree(s: seq<byte>) {
    && s != []
    && s[0] != COLON
    && s[|s| - 1] != COLON
    && forall j | 0 < j < |s| :: !(s[j - 1] == COLON && s[j] == COLON)
  }

  /**
    `partition_pairs` as the source writes it: one pass that routes each byte
    to `first` until a separator has been seen, then the trailing-colon loop.
   */
  method PartitionPairs(header: seq<byte>) returns (r: Option<Pairs>)
    ensures r == Partition(header)
  {
    if |header| == 0 {
      return None;
    }
    var secondPartition := false;
    var lastByte := header[0];
    var first: seq<byte> := [];
    var second: seq<byte> := [];
    for i := 0 to |header|
      invariant !secondPartition ==> first == header[..i] && second == []
      invariant !secondPartition ==> lastByte == header[if i == 0 then 0 else i - 1]
      invariant !secondPartition ==> forall j | 0 <= j < i :: !IsSeparator(header, j)
      invariant secondPartition ==>
                  && 0 < |first| <= i
                  && FirstSeparator(header, 0) == Some(|first| - 1)
                  && first == header[..|first|]
                  && second == header[|first|..i]
    {
      var n := header[i];
      if secondPartition {
        second := second + [n];
      } else {
        secondPartition := lastByte == COLON && n == COLON;
        if secondPartition {
          FirstSeparatorAt(header, i);
        }
        lastByte := n;
        first := first + [n];
      }
    }
    assert (first, second) == Split(header) by {
      if secondPartition {
        assert first == header[..|first| - 1 + 1];
        assert second == header[|first|..];
      } else {
        assert first == header;
        NoSeparator(header);
      }
    }
    var firstPart := first;
    for t := 0 to 2
      invariant first == StripColons(firstPart, t)
    {
      if first != [] && first[|first| - 1] == COLON {
        first := first[..|first| - 1];
      }
    }
    if first != [] && second != [] {
      r := Some((first, Some(second)));
    } else if first != [] {
      r := Some((first, None));
    } else {
      r := None;
    }
  }

  /** Stripping only ever removes colons from the end. */
  lemma {:induction false} StripColonsPrefix(f: seq<byte>, n: nat)
    ensures StripColons(f, n) <= f
    ensures forall j | |StripColons(f, n)| <= j < |f| :: f[j] == COLON
    ensures |f| - |StripColons(f, n)| <= n
    ensures |f| - |StripColons(f, n)| < n ==>
              StripColons(f, n) == [] || StripColons(f, n)[|StripColons(f, n)| - 1] != COLON
  {
    if n > 0 {
      StripColonsPrefix(f, n - 1);
    }
  }

  /**
    What `Partition` hands back: it fails exactly on an empty value or one that
    starts with a colon; otherwise the first part is free of `::`, and the value
    is that part, then either `::` and the non-empty second part, or at most
    two trailing colons.
   */
  lemma PartitionShape(s: seq<byte>)
    ensures Partition(s).None? <==> s == [] || s[0] == COLON
    ensures Partition(s).Some? ==> PairFree(Partition(s).value.0)
    ensures Partition(s).Some? && Partition(s).value.1.Some? ==>
              var (f, g) := Partition(s).value;
              g.value != [] && s == f + FIELD_PAIR_SEPARATOR + g.value
    ensures Partition(s).Some? && Partition(s).value.1.None? ==>
              var f := Partition(s).value.0;
              s == f || s == f + [COLON] || s == f + FIELD_PAIR_SEPARATOR
  {
    if s != [] {
      match FirstSeparator(s, 0)
      case None =>
        // no `::` anywhere, and no leading colon: at most one colon at the end
        StripColonsPrefix(s, 2);
        var f := StripColons(s, 2);
        assert !IsSeparator(s, 0);
        forall j | 0 < j < |s|
          ensures !(s[j - 1] == COLON && s[j] == COLON)
        {
          assert !IsSeparator(s, j);
        }
        if |s| >= 2 && s[|s| - 1] == COLON {
          assert !IsSeparator(s, |s| - 1);
        }
        assert f != [] && f[0] == s[0];
        assert f == s || f + [COLON] == s || f + FIELD_PAIR_SEPARATOR == s;
      case Some(k) =>
        if k == 0 {
          assert s[..k + 1] == [COLON];
          assert StripColons([COLON], 1) == DropColon([COLON]) == [];
          assert StripColons([COLON], 2) == [];
        } else {
          // the first part ends in the two colons of the separator
          var f0 := s[..k + 1];
          assert s[k - 1] == COLON;
          assert StripColons(f0, 1) == DropColon(f0) == s[..k];
          assert StripColons(f0, 2) == DropColon(s[..k]) == s[..k - 1];
          assert !IsSeparator(s, 0);
          forall j | 0 < j < k - 1
            ensures !(s[j - 1] == COLON && s[j] == COLON)
          {
            assert !IsSeparator(s, j);
          }
          if k >= 2 {
            assert !IsSeparator(s, k - 1);
          }
          assert s == s[..k - 1] + FIELD_PAIR_SEPARATOR + s[k + 1..];
        }
    }
  }

  /** A `::`-free value followed by the separator is split right there. */
  lemma SplitAtSeparator(f: seq<byte>, g: seq<byte>)
    requires PairFree(f)
    ensures Partition(f + FIELD_PAIR_SEPARATOR + g) == Some((f, if g == [] then None else Some(g)))
  {
    var s := f + FIELD_PAIR_SEPARATOR + g;
    assert IsSeparator(s, |f| + 1);
    forall j | 0 <= j < |f| + 1
      ensures !IsSeparator(s, j)
    {
      if 0 < j < |f| {
        assert s[j - 1] == f[j - 1] && s[j] == f[j];
      }
    }
    FirstSeparatorAt(s, |f| + 1);
    assert s[..|f| + 2] == f + FIELD_PAIR_SEPARATOR;
    assert s[|f| + 2..] == g;
    assert Split(s) == (f + FIELD_PAIR_SEPARATOR, g);
    assert StripColons(f + FIELD_PAIR_SEPARATOR, 1) == f + [COLON];
    assert StripColons(f + FIELD_PAIR_SEPARATOR, 2) == f;
  }

  /** A `::`-free value is its own single pair. */
  lemma WholeValue(f: seq<byte>)
    requires PairFree(f)
    ensures Partition(f) == Some((f, None))
  {
    forall j | 0 <= j < |f|
      ensures !IsSeparator(f, j)
    {
    }
    NoSeparator(f);
    assert Split(f) == (f, []);
    assert StripColons(f, 1) == f;
  }

  // ---------------------------------------------------------------------------
  // the header codec

  /**
    `parse_header`: exactly one value; its first pair must be a valid field,
    while an invalid second pair is silently dropped.
   */
  function ParseHeader(raw: seq<seq<byte>>): (r: Option<USN>)
    ensures |raw| != 1 ==> r.None?
    ensures r.Some? ==> r.value.first.WellFormed()
    ensures r.Some? && r.value.second.Some? ==> r.value.second.value.WellFormed()
  {
    if |raw| != 1 then None
    else match Partition(raw[0])
      case None => None
      case Some((n, u)) =>
        var second := if u.Some? then New(u.value) else None;
        match New(n)
        case Some(first) => Some(USN(first, second))
        case None => None
  }

  /** The first field, then `::` and the second one when there is one. */
  function FmtHeader(usn: USN): seq<byte> {
    Display(usn.first) + (if usn.second.Some? then FIELD_PAIR_SEPARATOR + Display(usn.second.value) else [])
  }

  /** The first field can stand before a `::`: its value has no `::` and no colon at either end. */
  predicate SeparableField(f: FieldMap) {
    f.WellFormed() && PairFree(f.value)
  }

  lemma SeparableDisplay(f: FieldMap)
    requires SeparableField(f)
    ensures PairFree(Display(f))
  {
    var s := Display(f);
    var k := |f.Key()|;
    forall j | 0 < j < |s|
      ensures !(s[j - 1] == COLON && s[j] == COLON)
    {
      if j < k {
        assert s[j] == f.Key()[j];
      } else if j == k {
        assert s[j - 1] == f.Key()[j - 1];
      } else if j == k + 1 {
        assert s[j] == f.value[0];
      } else {
        assert s[j - 1] == f.value[j - k - 2] && s[j] == f.value[j - k - 1];
      }
    }
    assert s[0] == f.Key()[0];
  }

  /** `ParseHeader` on one value, once that value's partition is known. */
  lemma ParseOne(s: seq<byte>, n: seq<byte>, u: Option<seq<byte>>)
    requires Partition(s) == Some((n, u))
    ensures ParseHeader([s]) ==
              if New(n).None? then None
              else Some(USN(New(n).value, if u.Some? then New(u.value) else None))
  {
  }

  /** A USN whose first field is separable and whose fields are well-formed is written and read back unchanged. */
  lemma RoundTrip(usn: USN)
    requires SeparableField(usn.first)
    requires usn.second.Some? ==> usn.second.value.WellFormed()
    ensures ParseHeader([FmtHeader(usn)]) == Some(usn)
  {
    var a := Display(usn.first);
    SeparableDisplay(usn.first);
    NewDisplay(usn.first);
    if usn.second.Some? {
      var b := Display(usn.second.value);
      NewDisplay(usn.second.value);
      SplitAtSeparator(a, b);
      assert FmtHeader(usn) == a + FIELD_PAIR_SEPARATOR + b;
      ParseOne(a + FIELD_PAIR_SEPARATOR + b, a, Some(b));
    } else {
      WholeValue(a);
      assert FmtHeader(usn) == a;
      ParseOne(a, a, None);
    }
  }

  /** One or two trailing colons after a single pair are dropped. */
  lemma TrailingColons(f: FieldMap)
    requires SeparableField(f)
    ensures ParseHeader([Display(f) + [COLON]]) == Some(USN(f, None))
    ensures ParseHeader([Display(f) + FIELD_PAIR_SEPARATOR]) == Some(USN(f, None))
  {
    var s := Display(f);
    SeparableDisplay(f);
    NewDisplay(f);
    SplitAtSeparator(s, []);
    assert s + FIELD_PAIR_SEPARATOR + [] == s + FIELD_PAIR_SEPARATOR;
    ParseOne(s + FIELD_PAIR_SEPARATOR, s, None);
    OneTrailingColon(s);
    ParseOne(s + [COLON], s, None);
  }

  /** A single trailing colon after a `::`-free value is popped. */
  lemma OneTrailingColon(s: seq<byte>)
    requires PairFree(s)
    ensures Partition(s + [COLON]) == Some((s, None))
  {
    var t := s + [COLON];
    forall j | 0 <= j < |t|
      ensures !IsSeparator(t, j)
    {
      if 0 < j < |s| {
        assert t[j - 1] == s[j - 1] && t[j] == s[j];
      }
    }
    NoSeparator(t);
    assert Split(t) == (t, []);
    assert StripColons(t, 1) == s;
    assert StripColons(t, 2) == s;
  }

  /** A second pair that is not a valid field is dropped, not rejected. */
  lemma InvalidSecondDropped(f: FieldMap, g: seq<byte>)
    requires SeparableField(f)
    requires g != [] && New(g).None?
    ensures ParseHeader([Display(f) + FIELD_PAIR_SEPARATOR + g]) == Some(USN(f, None))
  {
    SeparableDisplay(f);
    NewDisplay(f);
    SplitAtSeparator(Display(f), g);
    ParseOne(Display(f) + FIELD_PAIR_SEPARATOR + g, Display(f), Some(g));
  }

  /** The header fails exactly when the first pair is not a valid field. */
  lemma Rejections(s: seq<byte>)
    ensures s == [] || s[0] == COLON ==> ParseHeader([s]).None?
    ensures Partition(s).Some? ==> (ParseHeader([s]).None? <==> New(Partition(s).value.0).None?)
  {
    PartitionShape(s);
  }

  /** `uuid:::` leaves the first pair as the bare key `uuid`, which is no field. */
  lemma KeyBeforeSeparatorRejected()
    ensures ParseHeader([UUID_PREFIX + [COLON, COLON, COLON]]).None?
  {
    var s := UUID_PREFIX + [COLON, COLON, COLON];
    assert s == UUID_PREFIX + FIELD_PAIR_SEPARATOR + [COLON];
    assert PairFree(UUID_PREFIX);
    SplitAtSeparator(UUID_PREFIX, [COLON]);
    assert COLON !in UUID_PREFIX;
  }
}

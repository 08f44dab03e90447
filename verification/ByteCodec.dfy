/** Fixed-width little-endian fields, written and read back.

    A message is a sequence of fields of known kinds.  `Written` lays them out and
    `ReadBack` is the one partial function that undoes it; ByteWriter and ByteReader
    are proved against the two. */
module ByteCodec {
  import opened Arithmetic
  import opened Types

  // ----- numbers

  function Power256(w: nat): (p: nat)
    ensures p > 0
  {
    if w == 0 then 1 else 256 * Power256(w - 1)
  }

  /** The low `w` bytes of a number, lowest first. */
  function Little(value: nat, w: nat): (bytes: seq<U8>)
    ensures |bytes| == w
  {
    if w == 0 then [] else [value % 256] + Little(value / 256, w - 1)
  }

  function Value(bytes: seq<U8>): nat {
    if bytes == [] then 0 else bytes[0] + 256 * Value(bytes[1..])
  }

  lemma {:induction false} ValueLittle(value: nat, w: nat)
    requires value < Power256(w)
    ensures Value(Little(value, w)) == value
  {
    if w > 0 {
      ValueLittle(value / 256, w - 1);
    }
  }

  lemma {:induction false} LittleValue(bytes: seq<U8>)
    ensures Little(Value(bytes), |bytes|) == bytes && Value(bytes) < Power256(|bytes|)
  {
    if bytes != [] {
      LittleValue(bytes[1..]);
    }
  }

  lemma Powers()
    ensures Power256(1) == 0x100 && Power256(2) == 0x1_0000 && Power256(4) == 0x1_0000_0000
    ensures Power256(8) == 0x1_0000_0000_0000_0000
  {
    assert Power256(3) == 0x100_0000 && Power256(4) == 0x1_0000_0000;
    assert Power256(6) == 0x1_0000_0000_0000;
  }

  /** Byte `i` of a number, as a shift and a mask give it. */
  lemma {:induction false} LittleNext(value: nat, w: nat)
    ensures Little(value, w + 1) == Little(value, w) + [value / Power256(w) % 256]
  {
    if w > 0 {
      LittleNext(value / 256, w - 1);
      DivideTwice(value, Power256(w - 1));
      assert Little(value, w + 1) == [value % 256] + Little(value / 256, w);
    }
  }

  lemma DivideTwice(value: nat, p: nat)
    requires p > 0
    ensures value / 256 / p == value / (256 * p)
  {
    var q, r := value / 256 / p, value / 256 % p;
    assert value == 256 * (q * p + r) + value % 256;
    assert 256 * r + value % 256 < 256 * p;
    QuotientIs(value, 256 * p, q);
  }

  /** A signed number travels as its two's complement. */
  function Unsigned(n: I64): U64 { if n < 0 then n + 0x1_0000_0000_0000_0000 else n }

  function Signed(n: U64): I64 { if n >= 0x8000_0000_0000_0000 then n - 0x1_0000_0000_0000_0000 else n }

  // ----- fields

  datatype Kind = Fixed(width: nat) | Bounded(highest: U8) | Text

  datatype Field = Num(value: nat) | Str(text: seq<U8>)

  /** May a field of this kind hold the value? */
  predicate Fits(f: Field, k: Kind) {
    match k
    case Fixed(w) => f.Num? && f.value < Power256(w)
    case Bounded(highest) => f.Num? && f.value <= highest
    case Text => f.Str? && |f.text| < 0x1_0000
  }

  predicate AllFit(fs: seq<Field>, ks: seq<Kind>) {
    |fs| == |ks| && forall i :: 0 <= i < |fs| ==> Fits(fs[i], ks[i])
  }

  /** What the writer emits; lengths beyond sixteen bits lose their high bits. */
  function WrittenField(f: Field, k: Kind): seq<U8>
    requires f.Num? <==> !k.Text?
  {
    match k
    case Fixed(w) => Little(f.value, w)
    case Bounded(_) => Little(f.value, 1)
    case Text => Little(|f.text|, 2) + f.text
  }

  predicate Matching(fs: seq<Field>, ks: seq<Kind>) {
    |fs| == |ks| && forall i :: 0 <= i < |fs| ==> (fs[i].Num? <==> !ks[i].Text?)
  }

  function Written(fs: seq<Field>, ks: seq<Kind>): seq<U8>
    requires Matching(fs, ks)
  {
    if fs == [] then [] else WrittenField(fs[0], ks[0]) + Written(fs[1..], ks[1..])
  }

  /** Reads one field from the front, with how many bytes it took. */
  function ReadField(k: Kind, data: seq<U8>): Option<(Field, nat)> {
    match k
    case Fixed(w) =>
      if |data| < w then None else Some((Num(Value(data[..w])), w))
    case Bounded(highest) =>
      if |data| < 1 || data[0] > highest then None else Some((Num(data[0]), 1))
    case Text =>
      if |data| < 2 || |data| < 2 + Value(data[..2]) then None
      else Some((Str(data[2..2 + Value(data[..2])]), 2 + Value(data[..2])))
  }

  function ReadBack(ks: seq<Kind>, data: seq<U8>): Option<(seq<Field>, nat)> {
    if ks == [] then Some(([], 0))
    else match ReadField(ks[0], data)
      case None => None
      case Some((f, n)) =>
        ReadFieldBound(ks[0], data);
        match ReadBack(ks[1..], data[n..])
        case None => None
        case Some((fs, m)) => Some(([f] + fs, n + m))
  }

  lemma ReadFieldBound(k: Kind, data: seq<U8>)
    ensures var r := ReadField(k, data); r.Some? ==> r.value.1 <= |data|
  {
  }

  /** Reading a field succeeds exactly on its own encodings. */
  lemma ReadFieldExact(k: Kind, data: seq<U8>, f: Field, n: nat)
    ensures ReadField(k, data) == Some((f, n)) <==>
            Fits(f, k) && n == |WrittenField(f, k)| && WrittenField(f, k) <= data
  {
    Powers();
    if ReadField(k, data) == Some((f, n)) {
      match k
      case Fixed(w) => LittleValue(data[..w]);
      case Bounded(_) => OneByte(data[0]);
      case Text =>
        LittleValue(data[..2]);
        assert Little(|f.text|, 2) + f.text == data[..n];
    }
    if Fits(f, k) && n == |WrittenField(f, k)| && WrittenField(f, k) <= data {
      match k
      case Fixed(w) =>
        ValueLittle(f.value, w);
        assert data[..w] == Little(f.value, w);
      case Bounded(_) =>
        OneByte(f.value);
        assert data[0] == Little(f.value, 1)[0];
      case Text =>
        ValueLittle(|f.text|, 2);
        assert data[..2] == Little(|f.text|, 2);
        assert data[2..n] == f.text;
    }
  }

  lemma OneByte(b: U8)
    ensures Little(b, 1) == [b]
  {
    assert Little(b / 256, 0) == [];
  }

  lemma {:induction false} ReadBackSound(ks: seq<Kind>, data: seq<U8>, fs: seq<Field>, n: nat)
    requires ReadBack(ks, data) == Some((fs, n))
    ensures AllFit(fs, ks) && Matching(fs, ks) && n == |Written(fs, ks)| && Written(fs, ks) <= data
  {
    hide ReadField, WrittenField, Fits;
    if ks != [] {
      var k := ks[0];
      var (f, a) := ReadField(k, data).value;
      ReadFieldExact(k, data, f, a);
      ReadBackSound(ks[1..], data[a..], fs[1..], n - a);
      AllFitFront(fs, ks);
      FitsMatching(fs, ks);
      assert WrittenField(f, k) + Written(fs[1..], ks[1..]) == data[..n];
    }
  }

  lemma {:induction false} ReadBackComplete(ks: seq<Kind>, data: seq<U8>, fs: seq<Field>)
    requires AllFit(fs, ks) && Matching(fs, ks) && Written(fs, ks) <= data
    ensures ReadBack(ks, data) == Some((fs, |Written(fs, ks)|))
  {
    hide ReadField, WrittenField, Fits;
    if ks != [] {
      var k, n := ks[0], |Written(fs, ks)|;
      AllFitFront(fs, ks);
      FitsMatching(fs[1..], ks[1..]);
      var w := WrittenField(fs[0], k);
      assert Written(fs, ks)[..|w|] == w && data[..|w|] == w;
      ReadFieldExact(k, data, fs[0], |w|);
      ReadFieldBound(k, data);
      assert data[|w|..][..n - |w|] == data[|w|..n] == Written(fs[1..], ks[1..]);
      ReadBackComplete(ks[1..], data[|w|..], fs[1..]);
      assert fs == [fs[0]] + fs[1..];
    }
  }

  /** The round trip both ways: a run of reads succeeds exactly on what the writer would have
      written for some values that fit, and returns those values. */
  lemma ReadBackExact(ks: seq<Kind>, data: seq<U8>, fs: seq<Field>, n: nat)
    ensures ReadBack(ks, data) == Some((fs, n)) <==>
            AllFit(fs, ks) && n == |Written(fs, ks)| && Written(fs, ks) <= data
  {
    hide ReadBack, Written, AllFit;
    FitsMatching(fs, ks);
    if ReadBack(ks, data) == Some((fs, n)) {
      ReadBackSound(ks, data, fs, n);
    }
    if AllFit(fs, ks) && n == |Written(fs, ks)| && Written(fs, ks) <= data {
      ReadBackComplete(ks, data, fs);
    }
  }

  lemma FitsMatching(fs: seq<Field>, ks: seq<Kind>)
    ensures AllFit(fs, ks) ==> Matching(fs, ks)
  {
  }

  lemma AllFitFront(fs: seq<Field>, ks: seq<Kind>)
    requires |fs| == |ks| > 0
    ensures AllFit(fs, ks) <==> Fits(fs[0], ks[0]) && AllFit(fs[1..], ks[1..])
  {
    hide Fits;
    if Fits(fs[0], ks[0]) && AllFit(fs[1..], ks[1..]) {
      forall i | 0 <= i < |fs| ensures Fits(fs[i], ks[i]) {
        assert i > 0 ==> Fits(fs[1..][i - 1], ks[1..][i - 1]);
      }
    }
    if AllFit(fs, ks) {
      forall i | 0 <= i < |fs| - 1 ensures Fits(fs[1..][i], ks[1..][i]) {
        assert Fits(fs[i + 1], ks[i + 1]);
      }
    }
  }

  lemma {:induction false} WrittenConcat(fs: seq<Field>, ks: seq<Kind>, gs: seq<Field>, ls: seq<Kind>)
    requires Matching(fs, ks) && Matching(gs, ls)
    ensures Matching(fs + gs, ks + ls) && Written(fs + gs, ks + ls) == Written(fs, ks) + Written(gs, ls)
  {
    hide WrittenField;
    if fs == [] {
      assert fs + gs == gs && ks + ls == ls;
    } else {
      WrittenConcat(fs[1..], ks[1..], gs, ls);
      assert (fs + gs)[1..] == fs[1..] + gs && (ks + ls)[1..] == ks[1..] + ls;
    }
  }

  /** A longer run of reads starts like a shorter one. */
  lemma ReadBackStart(ks: seq<Kind>, ls: seq<Kind>, data: seq<U8>, fs: seq<Field>, n: nat)
    requires ReadBack(ks + ls, data) == Some((fs, n))
    ensures |ks| <= |fs| && AllFit(fs[..|ks|], ks) && AllFit(fs[|ks|..], ls)
    ensures Matching(fs[..|ks|], ks) && ReadBack(ks, data) == Some((fs[..|ks|], |Written(fs[..|ks|], ks)|))
  {
    hide ReadBack, Written, Fits;
    ReadBackExact(ks + ls, data, fs, n);
    var f, g := fs[..|ks|], fs[|ks|..];
    forall i | 0 <= i < |ks| ensures Fits(f[i], ks[i]) {
      assert Fits(fs[i], (ks + ls)[i]);
    }
    forall i | 0 <= i < |ls| ensures Fits(g[i], ls[i]) {
      assert Fits(fs[|ks| + i], (ks + ls)[|ks| + i]);
    }
    FitsMatching(f, ks);
    FitsMatching(g, ls);
    WrittenConcat(f, ks, g, ls);
    assert fs == f + g;
    ReadBackExact(ks, data, f, |Written(f, ks)|);
  }

  // ----- reading on

  /** One more read: it starts where the last one stopped, and a failure is final. */
  lemma {:induction false} ReadBackNext(ks: seq<Kind>, k: Kind, data: seq<U8>)
    ensures ReadBack(ks, data).None? ==> ReadBack(ks + [k], data).None?
    ensures ReadBack(ks, data).Some? ==>
              var (fs, n) := ReadBack(ks, data).value;
              n <= |data| && ReadBack(ks + [k], data) ==
                match ReadField(k, data[n..])
                case None => None
                case Some((f, m)) => Some((fs + [f], n + m))
  {
    hide ReadField;
    if ks == [] {
      assert ks + [k] == [k] && [k][1..] == [] && data[0..] == data;
      match ReadField(k, data)
      case None =>
      case Some((f, m)) =>
        ReadFieldBound(k, data);
        assert ReadBack([k][1..], data[m..]) == Some(([], 0));
        assert [f] + [] == [] + [f];
    } else {
      assert (ks + [k])[0] == ks[0] && (ks + [k])[1..] == ks[1..] + [k];
      match ReadField(ks[0], data)
      case None =>
      case Some((f, n)) =>
        ReadFieldBound(ks[0], data);
        ReadBackNext(ks[1..], k, data[n..]);
        match ReadBack(ks[1..], data[n..])
        case None =>
        case Some((fs, m)) =>
          assert data[n..][m..] == data[n + m..];
          match ReadField(k, data[n + m..])
          case None =>
          case Some((g, l)) => assert [f] + (fs + [g]) == [f] + fs + [g];
    }
  }

  lemma {:induction false} ValueNext(bytes: seq<U8>, b: U8)
    ensures Value(bytes + [b]) == Value(bytes) + b * Power256(|bytes|)
  {
    if bytes == [] {
      assert bytes + [b] == [b] && [b][1..] == [];
    } else {
      assert (bytes + [b])[1..] == bytes[1..] + [b];
      ValueNext(bytes[1..], b);
      assert 256 * (b * Power256(|bytes| - 1)) == b * Power256(|bytes|);
    }
  }

  lemma WrittenNext(fs: seq<Field>, ks: seq<Kind>, f: Field, k: Kind)
    requires Matching(fs, ks) && (f.Num? <==> !k.Text?)
    ensures Matching(fs + [f], ks + [k]) && Written(fs + [f], ks + [k]) == Written(fs, ks) + WrittenField(f, k)
  {
    hide WrittenField;
    WrittenConcat(fs, ks, [f], [k]);
    assert [f][1..] == [] && [k][1..] == [];
  }

  /** A number put together byte by byte, lowest first. */
  method Assembled(bytes: seq<U8>) returns (value: nat)
    ensures value == Value(bytes)
  {
    value := 0;
    for i := 0 to |bytes|
      invariant value == Value(bytes[..i])
    {
      assert bytes[..i + 1] == bytes[..i] + [bytes[i]];
      ValueNext(bytes[..i], bytes[i]);
      value := value + bytes[i] * Power256(i);
    }
    assert bytes[..|bytes|] == bytes;
  }

  /** Appends to a byte vector.  The ghost fields are the writes made so far. */
  class ByteWriter {
    ghost const start: seq<U8>
    var out: seq<U8>
    ghost var kinds: seq<Kind>
    ghost var fields: seq<Field>

    ghost predicate Valid()
      reads this
    {
      Matching(fields, kinds) && out == start + Written(fields, kinds)
    }

    constructor (begin: seq<U8>)
      ensures Valid() && start == begin && fields == [] && kinds == []
    {
      start := begin;
      out := begin;
      kinds := [];
      fields := [];
    }

    method Put(value: nat, width: nat)
      requires Valid()
      modifies this
      ensures Valid() && fields == old(fields) + [Num(value)] && kinds == old(kinds) + [Fixed(width)]
    {
      hide Written, Matching;
      for i := 0 to width
        invariant out == old(out) + Little(value, i) && fields == old(fields) && kinds == old(kinds)
      {
        LittleNext(value, i);
        assert out + [value / Power256(i) % 256] == old(out) + (Little(value, i) + [value / Power256(i) % 256]);
        out := out + [value / Power256(i) % 256];
      }
      WrittenNext(fields, kinds, Num(value), Fixed(width));
      fields, kinds := fields + [Num(value)], kinds + [Fixed(width)];
    }

    method PutByte(value: U8, ghost kind: Kind)
      requires Valid() && (kind == Fixed(1) || kind.Bounded?)
      modifies this
      ensures Valid() && fields == old(fields) + [Num(value)] && kinds == old(kinds) + [kind]
    {
      OneByte(value);
      out := out + [value];
      WrittenNext(fields, kinds, Num(value), kind);
      fields, kinds := fields + [Num(value)], kinds + [kind];
    }

    method PutSigned(value: I64)
      requires Valid()
      modifies this
      ensures Valid() && fields == old(fields) + [Num(Unsigned(value))] && kinds == old(kinds) + [Fixed(8)]
    {
      Put(Unsigned(value), 8);
    }

    /** The length is cut to sixteen bits; the bytes are not. */
    method PutText(text: seq<U8>)
      requires Valid()
      modifies this
      ensures Valid() && fields == old(fields) + [Str(text)] && kinds == old(kinds) + [Text]
    {
      hide Written, Little, Matching;
      LittleWraps(|text|);
      WrittenNext(fields, kinds, Str(text), Text);
      ghost var before, fs, ks := out, fields, kinds;
      Put(|text| % 0x1_0000, 2);
      WrittenNext(fs, ks, Num(|text| % 0x1_0000), Fixed(2));
      out := out + text;
      fields, kinds := fs + [Str(text)], ks + [Text];
    }
  }

  lemma LittleWraps(n: nat)
    ensures Little(n % 0x1_0000, 2) == Little(n, 2)
  {
    var m := n % 0x1_0000;
    assert m % 256 == n % 256 && m / 256 == n / 256 % 256;
    assert Little(m / 256, 1) == [m / 256 % 256] + Little(m / 256 / 256, 0);
    assert Little(n / 256, 1) == [n / 256 % 256] + Little(n / 256 / 256, 0);
  }

  /** Reads through a moving cursor and never recovers from a failure.  The ghost fields are
      the reads made so far; `Valid` says they come out as `ReadBack` says. */
  class ByteReader {
    const data: seq<U8>
    var offset: nat
    var failed: bool
    ghost var kinds: seq<Kind>
    ghost var fields: seq<Field>

    ghost predicate Valid()
      reads this
    {
      && offset <= |data|
      && (failed ==> ReadBack(kinds, data).None?)
      && (!failed ==> ReadBack(kinds, data) == Some((fields, offset)))
    }

    constructor (bytes: seq<U8>)
      ensures Valid() && data == bytes && kinds == [] && fields == [] && !failed
    {
      data := bytes;
      offset := 0;
      failed := false;
      kinds := [];
      fields := [];
    }

    predicate FullyConsumed()
      reads this
    {
      !failed && offset == |data|
    }

    method Request(bytes: nat) returns (ok: bool)
      requires offset <= |data|
      modifies this`failed
      ensures ok == (!old(failed) && old(|data| - offset) >= bytes)
      ensures failed == !ok
    {
      if failed || |data| - offset < bytes {
        failed := true;
        return false;
      }
      return true;
    }

    method Take(width: nat) returns (value: nat)
      requires Valid()
      modifies this
      ensures Valid() && kinds == old(kinds) + [Fixed(width)] && (old(failed) ==> failed)
      ensures if failed then value == 0 else fields == old(fields) + [Num(value)] && value < Power256(width)
    {
      hide ReadBack, Value, Power256;
      ReadBackNext(kinds, Fixed(width), data);
      kinds := kinds + [Fixed(width)];
      var ok := Request(width);
      if !ok {
        return 0;
      }
      assert data[offset..][..width] == data[offset..offset + width];
      value := Assembled(data[offset..offset + width]);
      LittleValue(data[offset..offset + width]);
      offset := offset + width;
      fields := fields + [Num(value)];
    }

    /** A byte that may not exceed `highest`: an enumeration, or a flag with 1. */
    method Enumeration(highest: U8) returns (value: U8)
      requires Valid()
      modifies this
      ensures Valid() && kinds == old(kinds) + [Bounded(highest)] && (old(failed) ==> failed)
      ensures value <= highest && if failed then value == 0 else fields == old(fields) + [Num(value)]
    {
      hide ReadBack;
      ReadBackNext(kinds, Bounded(highest), data);
      kinds := kinds + [Bounded(highest)];
      var ok := Request(1);
      if !ok {
        return 0;
      }
      value := data[offset];
      assert data[offset..][0] == value;
      offset := offset + 1;
      if value > highest {
        failed := true;
        return 0;
      }
      fields := fields + [Num(value)];
    }

    method TakeText() returns (text: seq<U8>)
      requires Valid()
      modifies this
      ensures Valid() && kinds == old(kinds) + [Text] && (old(failed) ==> failed)
      ensures if failed then text == [] else fields == old(fields) + [Str(text)] && |text| < 0x1_0000
    {
      hide ReadBack;
      ghost var before, read := kinds, fields;
      ReadBackNext(kinds, Text, data);
      ghost var start := offset;
      var length := Take(2);
      if failed {
        TextTooShort(before, data);
        kinds := before + [Text];
        return [];
      }
      Powers();
      ReadBackNext(before, Fixed(2), data);
      assert fields[|read|] == Num(length) && length == Value(data[start..][..2]);
      var ok := Request(length);
      kinds := before + [Text];
      if !ok {
        return [];
      }
      text := data[offset..offset + length];
      assert data[start..][2..2 + length] == text;
      offset := offset + length;
      fields := read + [Str(text)];
    }
  }

  lemma TextTooShort(ks: seq<Kind>, data: seq<U8>)
    requires ReadBack(ks + [Fixed(2)], data).None?
    ensures ReadBack(ks + [Text], data).None?
  {
    ReadBackNext(ks, Fixed(2), data);
    ReadBackNext(ks, Text, data);
  }
}

/** DNS names on the wire (section 4.1.4 of RFC 1035), as the command-line tool reads them. */
module Dns {
  import opened Dotted
  import opened Hex

  /** How text and bytes translate (UTF-8, replacing what does not decode): only its laws count. */
  datatype Codec = Codec(enc: string -> seq<Byte>, dec: seq<Byte> -> string) {
    ghost predicate Laws() {
      && (forall b :: |b| > 0 ==> |dec(b)| > 0)
      && (forall s :: IsAscii(s) ==> |enc(s)| == |s| && dec(enc(s)) == s)
    }
  }

  /** Character codes cut to a byte: a codec that keeps the laws. */
  function Latin(): Codec {
    Codec((s: string) => seq(|s|, i requires 0 <= i < |s| => s[i] as nat % 256),
          (b: seq<Byte>) => seq(|b|, i requires 0 <= i < |b| => b[i] as char))
  }

  lemma LawsCanHold()
    ensures Latin().Laws()
  {
    forall s | IsAscii(s) ensures |Latin().enc(s)| == |s| && Latin().dec(Latin().enc(s)) == s {
      forall i | 0 <= i < |s| ensures Latin().dec(Latin().enc(s))[i] == s[i] { assert s[i] as nat % 256 == s[i] as nat; }
    }
  }

  predicate IsAscii(s: string) { forall i :: 0 <= i < |s| ==> s[i] < 128 as char }

  datatype Encoded = Wire(bytes: seq<Byte>) | TooLong

  datatype Decoded = Name(name: string, end: nat) | BadName | OutOfBytes

  const MAX_DEPTH := 20

  // ---- encoding ----

  /** Each part with its length before it; a length over 255 is no byte. */
  function Parts(c: Codec, ps: seq<string>): (r: Encoded) {
    if ps == [] then Wire([])
    else if |ps[0]| > 255 then TooLong
    else
      var rest := Parts(c, ps[1..]);
      if rest.TooLong? then TooLong else Wire([|ps[0]|] + c.enc(ps[0]) + rest.bytes)
  }

  /** _qname */
  function QName(c: Codec, name: string): (r: Encoded) {
    var parts := Parts(c, Split(name));
    if parts.TooLong? then TooLong else Wire(parts.bytes + [0])
  }

  // ---- decoding ----

  function Pointer(hi: Byte, lo: Byte): nat { (hi % 64) * 256 + lo }

  function NonEmpty(ls: seq<string>): (r: seq<string>)
    ensures (forall i :: 0 <= i < |ls| ==> ls[i] != "") ==> r == ls
  {
    if ls == [] then [] else if ls[0] == "" then NonEmpty(ls[1..]) else [ls[0]] + NonEmpty(ls[1..])
  }

  /** buf[a..b] as Python cuts it: no further than the end. */
  function Slice(buf: seq<Byte>, a: nat, b: nat): seq<Byte>
    requires a <= b
  {
    buf[if a < |buf| then a else |buf| .. if b < |buf| then b else |buf|]
  }

  /** _name, with the labels read so far. */
  function Read(c: Codec, buf: seq<Byte>, off: nat, depth: nat, labels: seq<string>): Decoded
    decreases if depth > MAX_DEPTH then 0 else MAX_DEPTH + 1 - depth, if off < |buf| then |buf| - off else 0
  {
    if off >= |buf| || depth > MAX_DEPTH then BadName
    else if buf[off] == 0 then Name(Join(labels), off + 1)
    else if buf[off] >= 192 then
      if off + 1 >= |buf| then OutOfBytes
      else
        var rest := Read(c, buf, Pointer(buf[off], buf[off + 1]), depth + 1, []);
        if rest.Name? then Name(Join(NonEmpty(labels + [rest.name])), off + 2) else rest
    else Read(c, buf, off + 1 + buf[off], depth, labels + [c.dec(Slice(buf, off + 1, off + 1 + buf[off]))])
  }

  method ReadName(c: Codec, buf: seq<Byte>, start: nat, depth: nat) returns (r: Decoded)
    ensures r == Read(c, buf, start, depth, [])
    decreases if depth > MAX_DEPTH then 0 else MAX_DEPTH + 1 - depth
  {
    var labels: seq<string> := [];
    var off := start;
    while true
      invariant Read(c, buf, start, depth, []) == Read(c, buf, off, depth, labels)
      decreases if off < |buf| then |buf| - off else 0
    {
      if off >= |buf| || depth > MAX_DEPTH { return BadName; }
      var n := buf[off];
      if n == 0 { return Name(Join(labels), off + 1); }
      if n >= 192 {
        if off + 1 >= |buf| { return OutOfBytes; }
        var rest := ReadName(c, buf, Pointer(n, buf[off + 1]), depth + 1);
        if !rest.Name? { return rest; }
        labels := labels + [rest.name];
        return Name(Join(NonEmpty(labels)), off + 2);
      }
      labels := labels + [c.dec(Slice(buf, off + 1, off + 1 + n))];
      off := off + 1 + n;
    }
  }

  // ---- what a name in a packet means ----

  /** From off the packet spells these labels through this many pointers: length-prefixed
      labels up to a zero, or a pointer to where the rest of them stands. */
  ghost predicate Spells(buf: seq<Byte>, off: nat, labels: seq<seq<Byte>>, jumps: nat)
    decreases jumps, |labels|
  {
    && off < |buf|
    && if buf[off] == 0 then labels == [] && jumps == 0
       else if buf[off] >= 192 then
         && off + 1 < |buf| && jumps > 0
         && Spells(buf, Pointer(buf[off], buf[off + 1]), labels, jumps - 1)
       else
         && labels != [] && off + 1 + buf[off] <= |buf|
         && labels[0] == buf[off + 1..off + 1 + buf[off]]
         && Spells(buf, off + 1 + buf[off], labels[1..], jumps)
  }

  /** Just past the zero or the first pointer of the name at off. */
  function End(buf: seq<Byte>, off: nat): nat
    decreases if off < |buf| then |buf| - off else 0
  {
    if off >= |buf| || buf[off] == 0 then off + 1
    else if buf[off] >= 192 then off + 2
    else End(buf, off + 1 + buf[off])
  }

  function Texts(c: Codec, labels: seq<seq<Byte>>): seq<string> {
    seq(|labels|, i requires 0 <= i < |labels| => c.dec(labels[i]))
  }

  ghost predicate Full(ls: seq<string>) { forall i :: 0 <= i < |ls| ==> ls[i] != "" }

  lemma {:induction false} JoinFlat(a: seq<string>, b: seq<string>)
    requires a != [] && b != []
    ensures Join(a + [Join(b)]) == Join(a + b)
  {
    if |a| == 1 {
      assert (a + [Join(b)])[1..] == [Join(b)] && (a + b)[1..] == b;
    } else {
      JoinFlat(a[1..], b);
      assert (a + [Join(b)])[1..] == a[1..] + [Join(b)] && (a + b)[1..] == a[1..] + b;
    }
  }

  /** Appending the pointed-to name as one label, empty ones dropped, is appending its labels. */
  lemma JoinPointed(a: seq<string>, b: seq<string>)
    requires Full(a) && Full(b)
    ensures Join(NonEmpty(a + [Join(b)])) == Join(a + b)
  {
    if b == [] {
      DropsLast(a);
      assert a + b == a;
    } else {
      assert Join(b) != "";
      assert Full(a + [Join(b)]);
      if a == [] {
        assert a + [Join(b)] == [Join(b)] && a + b == b;
      } else {
        JoinFlat(a, b);
      }
    }
  }

  lemma {:induction false} DropsLast(a: seq<string>)
    requires Full(a)
    ensures NonEmpty(a + [""]) == a
  {
    if a != [] {
      assert (a + [""])[1..] == a[1..] + [""];
      DropsLast(a[1..]);
    }
  }

  lemma {:induction false} LabelsAreBytes(buf: seq<Byte>, off: nat, labels: seq<seq<Byte>>, jumps: nat)
    requires Spells(buf, off, labels, jumps)
    ensures forall i :: 0 <= i < |labels| ==> 0 < |labels[i]| < 192
    decreases jumps, |labels|
  {
    if buf[off] >= 192 {
      LabelsAreBytes(buf, Pointer(buf[off], buf[off + 1]), labels, jumps - 1);
    } else if buf[off] > 0 {
      LabelsAreBytes(buf, off + 1 + buf[off], labels[1..], jumps);
      assert forall i :: 1 <= i < |labels| ==> labels[i] == labels[1..][i - 1];
    }
  }

  lemma TextsFull(c: Codec, buf: seq<Byte>, off: nat, labels: seq<seq<Byte>>, jumps: nat)
    requires c.Laws() && Spells(buf, off, labels, jumps)
    ensures Full(Texts(c, labels))
  {
    LabelsAreBytes(buf, off, labels, jumps);
  }

  lemma TextsInOrder(c: Codec, before: seq<string>, labels: seq<seq<Byte>>)
    requires labels != []
    ensures before + [c.dec(labels[0])] + Texts(c, labels[1..]) == before + Texts(c, labels)
  {
  }

  /** What a packet spells is read, if no more than 20 pointers are followed, depth included. */
  lemma {:induction false} SpelledIsRead(c: Codec, buf: seq<Byte>, off: nat, depth: nat, before: seq<string>,
                                         labels: seq<seq<Byte>>, jumps: nat)
    requires c.Laws() && Full(before) && Spells(buf, off, labels, jumps)
    ensures depth + jumps <= MAX_DEPTH ==>
      Read(c, buf, off, depth, before) == Name(Join(before + Texts(c, labels)), End(buf, off))
    ensures depth + jumps > MAX_DEPTH ==> Read(c, buf, off, depth, before) == BadName
    decreases jumps, |labels|
  {
    TextsFull(c, buf, off, labels, jumps);
    if buf[off] == 0 {
      assert before + Texts(c, labels) == before;
    } else if buf[off] >= 192 {
      var p := Pointer(buf[off], buf[off + 1]);
      SpelledIsRead(c, buf, p, depth + 1, [], labels, jumps - 1);
      assert [] + Texts(c, labels) == Texts(c, labels);
      JoinPointed(before, Texts(c, labels));
    } else {
      var text := c.dec(labels[0]);
      assert Slice(buf, off + 1, off + 1 + buf[off]) == labels[0];
      assert Texts(c, labels)[0] == text != "";
      assert Full(before + [text]);
      SpelledIsRead(c, buf, off + 1 + buf[off], depth, before + [text], labels[1..], jumps);
      TextsInOrder(c, before, labels);
    }
  }

  /** What is read was spelled. */
  lemma {:induction false} ReadIsSpelled(c: Codec, buf: seq<Byte>, off: nat, depth: nat, before: seq<string>)
    requires Read(c, buf, off, depth, before).Name?
    ensures exists labels: seq<seq<Byte>>, jumps: nat ::
      depth + jumps <= MAX_DEPTH && Spells(buf, off, labels, jumps)
    decreases MAX_DEPTH + 1 - depth, |buf| - off
  {
    if buf[off] == 0 {
      assert Spells(buf, off, [], 0);
    } else if buf[off] >= 192 {
      var p := Pointer(buf[off], buf[off + 1]);
      ReadIsSpelled(c, buf, p, depth + 1, []);
      var labels: seq<seq<Byte>>, jumps: nat :|
        depth + 1 + jumps <= MAX_DEPTH && Spells(buf, p, labels, jumps);
      assert Spells(buf, off, labels, jumps + 1);
    } else {
      var next := off + 1 + buf[off];
      ReadIsSpelled(c, buf, next, depth, before + [c.dec(Slice(buf, off + 1, next))]);
      var labels: seq<seq<Byte>>, jumps: nat :| depth + jumps <= MAX_DEPTH && Spells(buf, next, labels, jumps);
      var more := [buf[off + 1..next]] + labels;
      assert more[1..] == labels;
      assert Spells(buf, off, more, jumps);
    }
  }

  /** Reading is exact: it returns a name and an end if and only if the packet spells that name
      there through at most 20 pointers and the name ends there. */
  lemma ReadIsExact(c: Codec, buf: seq<Byte>, off: nat, name: string, end: nat)
    requires c.Laws()
    ensures Read(c, buf, off, 0, []) == Name(name, end) <==>
      exists labels: seq<seq<Byte>>, jumps: nat ::
        jumps <= MAX_DEPTH && Spells(buf, off, labels, jumps) && name == Join(Texts(c, labels)) && end == End(buf, off)
  {
    if Read(c, buf, off, 0, []) == Name(name, end) {
      ReadIsSpelled(c, buf, off, 0, []);
      var labels: seq<seq<Byte>>, jumps: nat :| jumps <= MAX_DEPTH && Spells(buf, off, labels, jumps);
      SpelledIsRead(c, buf, off, 0, [], labels, jumps);
      assert [] + Texts(c, labels) == Texts(c, labels);
    }
    forall labels: seq<seq<Byte>>, jumps: nat | jumps <= MAX_DEPTH && Spells(buf, off, labels, jumps)
      ensures Read(c, buf, off, 0, []) == Name(Join(Texts(c, labels)), End(buf, off))
    {
      SpelledIsRead(c, buf, off, 0, [], labels, jumps);
      assert [] + Texts(c, labels) == Texts(c, labels);
    }
  }

  /** A pointer to t, as section 4.1.4 of RFC 1035 writes it in two bytes, reads as the name at t. */
  lemma PointedReads(c: Codec, buf: seq<Byte>, off: nat, t: nat, labels: seq<seq<Byte>>, jumps: nat)
    requires c.Laws() && off + 1 < |buf| && t < 0x4000
    requires buf[off] == 0xC0 + t / 256 && buf[off + 1] == t % 256
    requires Spells(buf, t, labels, jumps) && jumps < MAX_DEPTH
    ensures Read(c, buf, t, 0, []).Name?
    ensures Read(c, buf, off, 0, []) == Name(Read(c, buf, t, 0, []).name, off + 2)
  {
    assert Pointer(buf[off], buf[off + 1]) == t;
    assert Spells(buf, off, labels, jumps + 1);
    assert [] + Texts(c, labels) == Texts(c, labels);
    SpelledIsRead(c, buf, t, 0, [], labels, jumps);
    SpelledIsRead(c, buf, off, 0, [], labels, jumps + 1);
  }

  // ---- the expanded form, and round trips ----

  /** The labels written out with no pointer. */
  function Flat(labels: seq<seq<Byte>>): (w: seq<Byte>)
    requires forall i :: 0 <= i < |labels| ==> |labels[i]| < 192
  {
    if labels == [] then [0] else [|labels[0]|] + labels[0] + Flat(labels[1..])
  }

  /** The bytes w stand at off. */
  ghost predicate FlatAt(buf: seq<Byte>, off: nat, w: seq<Byte>) {
    off + |w| <= |buf| && forall i :: 0 <= i < |w| ==> buf[off + i] == w[i]
  }

  lemma CutFirst(buf: seq<Byte>, off: nat, n: Byte, part: seq<Byte>, tail: seq<Byte>)
    requires |part| == n && FlatAt(buf, off, [n] + part + tail)
    ensures buf[off] == n && buf[off + 1..off + 1 + n] == part && FlatAt(buf, off + 1 + n, tail)
  {
    var w := [n] + part + tail;
    assert buf[off + 0] == w[0];
    forall i | 0 <= i < n ensures buf[off + 1 + i] == part[i] { assert buf[off + (1 + i)] == w[1 + i]; }
    forall i | 0 <= i < |tail| ensures buf[off + 1 + n + i] == tail[i] { assert buf[off + (1 + n + i)] == w[1 + n + i]; }
  }

  lemma {:induction false} FlatSpells(buf: seq<Byte>, off: nat, labels: seq<seq<Byte>>)
    requires forall i :: 0 <= i < |labels| ==> 0 < |labels[i]| < 192
    requires FlatAt(buf, off, Flat(labels))
    ensures Spells(buf, off, labels, 0) && End(buf, off) == off + |Flat(labels)|
    decreases labels
  {
    if labels == [] {
      assert buf[off + 0] == Flat(labels)[0];
    } else {
      var n: Byte, tail := |labels[0]|, Flat(labels[1..]);
      CutFirst(buf, off, n, labels[0], tail);
      FlatSpells(buf, off + 1 + n, labels[1..]);
    }
  }

  lemma FlatReads(c: Codec, labels: seq<seq<Byte>>, pre: seq<Byte>, post: seq<Byte>)
    requires c.Laws() && forall i :: 0 <= i < |labels| ==> 0 < |labels[i]| < 192
    ensures Read(c, pre + Flat(labels) + post, |pre|, 0, []) == Name(Join(Texts(c, labels)), |pre| + |Flat(labels)|)
  {
    var buf := pre + Flat(labels) + post;
    assert FlatAt(buf, |pre|, Flat(labels));
    FlatSpells(buf, |pre|, labels);
    SpelledIsRead(c, buf, |pre|, 0, [], labels, 0);
    assert [] + Texts(c, labels) == Texts(c, labels);
  }

  /** A compressed name reads the same as its labels written out, in any packet. */
  lemma ExpandedReadsTheSame(c: Codec, buf: seq<Byte>, off: nat, pre: seq<Byte>, post: seq<Byte>)
    requires c.Laws() && Read(c, buf, off, 0, []).Name?
    ensures exists labels: seq<seq<Byte>>, jumps: nat ::
      && jumps <= MAX_DEPTH && Spells(buf, off, labels, jumps)
      && (forall i :: 0 <= i < |labels| ==> |labels[i]| < 192)
      && Read(c, pre + Flat(labels) + post, |pre|, 0, []) ==
           Name(Read(c, buf, off, 0, []).name, |pre| + |Flat(labels)|)
  {
    ReadIsSpelled(c, buf, off, 0, []);
    var labels: seq<seq<Byte>>, jumps: nat :| jumps <= MAX_DEPTH && Spells(buf, off, labels, jumps);
    SpelledIsRead(c, buf, off, 0, [], labels, jumps);
    assert [] + Texts(c, labels) == Texts(c, labels);
    LabelsAreBytes(buf, off, labels, jumps);
    FlatReads(c, labels, pre, post);
  }

  /** A dotted ASCII name with labels of 1 to 63 characters. */
  ghost predicate HostName(name: string) {
    forall i :: 0 <= i < |Split(name)| ==> IsAscii(Split(name)[i]) && 1 <= |Split(name)[i]| <= 63
  }

  function Bytes(c: Codec, ps: seq<string>): seq<seq<Byte>> {
    seq(|ps|, i requires 0 <= i < |ps| => c.enc(ps[i]))
  }

  lemma {:induction false} PartsAreFlat(c: Codec, ps: seq<string>)
    requires c.Laws() && forall i :: 0 <= i < |ps| ==> IsAscii(ps[i]) && 1 <= |ps[i]| <= 63
    ensures forall i :: 0 <= i < |ps| ==> |Bytes(c, ps)[i]| == |ps[i]|
    ensures Parts(c, ps).Wire? && Parts(c, ps).bytes + [0] == Flat(Bytes(c, ps))
  {
    if ps != [] {
      PartsAreFlat(c, ps[1..]);
      assert Bytes(c, ps)[1..] == Bytes(c, ps[1..]);
      assert Bytes(c, ps)[0] == c.enc(ps[0]);
    }
  }

  /** Encoding a host name and reading it back, anywhere in a packet, gives the name and the
      offset just past it. */
  lemma RoundTrip(c: Codec, name: string, pre: seq<Byte>, post: seq<Byte>)
    requires c.Laws() && HostName(name)
    ensures QName(c, name).Wire?
    ensures var w := QName(c, name).bytes;
      Read(c, pre + w + post, |pre|, 0, []) == Name(name, |pre| + |w|)
  {
    var ps := Split(name);
    var labels := Bytes(c, ps);
    PartsAreFlat(c, ps);
    assert forall i :: 0 <= i < |labels| ==> labels[i] == c.enc(ps[i]);
    FlatReads(c, labels, pre, post);
    assert Texts(c, labels) == ps;
    JoinOfSplit(name);
  }

  /** Offsets from which reading never leaves them, nor meets a zero: every pointer cycle,
      with or without labels on the way. */
  ghost predicate Trap(buf: seq<Byte>, offs: set<nat>) {
    forall off {:trigger Stays(buf, offs, off)} :: off in offs ==> Stays(buf, offs, off)
  }

  ghost predicate Stays(buf: seq<Byte>, offs: set<nat>, off: nat) {
    && off < |buf| && buf[off] != 0
    && if buf[off] >= 192 then off + 1 < |buf| && Pointer(buf[off], buf[off + 1]) in offs
       else off + 1 + buf[off] in offs
  }

  lemma {:induction false} TrapSpellsNothing(buf: seq<Byte>, offs: set<nat>, off: nat, labels: seq<seq<Byte>>, jumps: nat)
    requires Trap(buf, offs) && off in offs
    ensures !Spells(buf, off, labels, jumps)
    decreases jumps, |labels|
  {
    assert Stays(buf, offs, off);
    if buf[off] >= 192 {
      if jumps > 0 { TrapSpellsNothing(buf, offs, Pointer(buf[off], buf[off + 1]), labels, jumps - 1); }
    } else if labels != [] {
      TrapSpellsNothing(buf, offs, off + 1 + buf[off], labels[1..], jumps);
    }
  }

  /** A name that runs into a pointer cycle is refused. */
  lemma CycleIsRefused(c: Codec, buf: seq<Byte>, offs: set<nat>, off: nat)
    requires Trap(buf, offs) && off in offs
    ensures !Read(c, buf, off, 0, []).Name?
  {
    forall labels: seq<seq<Byte>>, jumps: nat ensures !Spells(buf, off, labels, jumps) {
      TrapSpellsNothing(buf, offs, off, labels, jumps);
    }
    if Read(c, buf, off, 0, []).Name? { ReadIsSpelled(c, buf, off, 0, []); }
  }
}

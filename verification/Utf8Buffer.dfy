/** The streaming UTF-8 repairer (src/utf8.cpp): bytes arrive in arbitrary chunks, complete characters leave at once,
    malformed bytes leave as U+FFFD, and a possible beginning of a character is held back. */
module Utf8Repair {

  newtype Byte = x: int | 0 <= x < 256

  /** U+FFFD in UTF-8. */
  const REPLACEMENT: seq<Byte> := [0xEF, 0xBF, 0xBD]

  // ---- the grammar of section 4 of RFC 3629 ---------------------------------------

  predicate Tail(b: Byte) {
    0x80 <= b <= 0xBF
  }

  /** One character: the productions UTF8-1 to UTF8-4. */
  predicate IsChar(s: seq<Byte>) {
    || (|s| == 1 && s[0] <= 0x7F)
    || (|s| == 2 && 0xC2 <= s[0] <= 0xDF && Tail(s[1]))
    || (|s| == 3 && Tail(s[2])
        && (|| (s[0] == 0xE0 && 0xA0 <= s[1] <= 0xBF)
            || (0xE1 <= s[0] <= 0xEC && Tail(s[1]))
            || (s[0] == 0xED && 0x80 <= s[1] <= 0x9F)
            || (0xEE <= s[0] <= 0xEF && Tail(s[1]))))
    || (|s| == 4 && Tail(s[2]) && Tail(s[3])
        && (|| (s[0] == 0xF0 && 0x90 <= s[1] <= 0xBF)
            || (0xF1 <= s[0] <= 0xF3 && Tail(s[1]))
            || (s[0] == 0xF4 && 0x80 <= s[1] <= 0x8F)))
  }

  /** A sequence of characters. */
  ghost predicate WellFormed(s: seq<Byte>)
    decreases |s|
  {
    s == [] || exists n :: 1 <= n <= |s| && IsChar(s[..n]) && WellFormed(s[n..])
  }

  /** A nonempty proper beginning of some character. */
  ghost predicate Unfinished(s: seq<Byte>) {
    s != [] && exists more: seq<Byte> :: more != [] && IsChar(s + more)
  }

  // ---- the decoder's view of a lead byte ------------------------------------------

  function Width(lead: Byte): nat {
    if lead < 0x80 then 1
    else if 0xC2 <= lead <= 0xDF then 2
    else if 0xE0 <= lead <= 0xEF then 3
    else if 0xF0 <= lead <= 0xF4 then 4
    else 0
  }

  /** The check on the `i`-th byte of a character starting with `lead`. */
  predicate ByteFits(lead: Byte, i: nat, b: Byte) {
    && Tail(b)
    && (i == 1 ==>
          && !(lead == 0xE0 && b < 0xA0) && !(lead == 0xED && b >= 0xA0)
          && !(lead == 0xF0 && b < 0x90) && !(lead == 0xF4 && b >= 0x90))
  }

  ghost predicate FitsSoFar(s: seq<Byte>) {
    && s != [] && Width(s[0]) != 0
    && forall i :: 1 <= i < Width(s[0]) && i < |s| ==> ByteFits(s[0], i, s[i])
  }

  /** The lead-byte table with the second-byte exceptions accepts exactly the characters of the grammar. */
  lemma FitsIsChar(s: seq<Byte>, n: nat)
    requires 1 <= n <= |s|
    ensures IsChar(s[..n]) <==> FitsSoFar(s) && n == Width(s[0])
  {
    var c := s[..n];
    assert forall i :: 0 <= i < n ==> c[i] == s[i];
    if FitsSoFar(s) && n == Width(s[0]) {
      assert n > 1 ==> ByteFits(s[0], 1, s[1]);
      assert n > 2 ==> ByteFits(s[0], 2, s[2]);
      assert n > 3 ==> ByteFits(s[0], 3, s[3]);
    }
    if IsChar(c) {
      assert n == Width(s[0]);
      assert n > 1 ==> ByteFits(s[0], 1, s[1]);
      assert n > 2 ==> ByteFits(s[0], 2, s[2]);
      assert n > 3 ==> ByteFits(s[0], 3, s[3]);
    }
  }

  /** What is held back is exactly what can still become a character. */
  lemma FitsIsUnfinished(s: seq<Byte>)
    ensures Unfinished(s) <==> FitsSoFar(s) && |s| < Width(s[0])
  {
    hide IsChar;
    if Unfinished(s) {
      var more: seq<Byte> :| more != [] && IsChar(s + more);
      var c := s + more;
      assert c[..|c|] == c;
      FitsIsChar(c, |c|);
      FitsStart(s, more);
    }
    if FitsSoFar(s) && |s| < Width(s[0]) {
      var more := Completion(s);
    }
  }

  lemma FitsStart(s: seq<Byte>, more: seq<Byte>)
    requires s != [] && FitsSoFar(s + more)
    ensures FitsSoFar(s) && (s + more)[0] == s[0]
  {
    hide Width, ByteFits;
    forall i | 1 <= i < Width(s[0]) && i < |s| ensures ByteFits(s[0], i, s[i]) {
      assert (s + more)[i] == s[i];
    }
  }

  /** A byte that fits at this place of a character. */
  function Filler(lead: Byte, i: nat): Byte {
    if i == 1 && lead != 0xED && lead != 0xF4 then 0xBF else 0x80
  }

  lemma Completion(s: seq<Byte>) returns (more: seq<Byte>)
    requires FitsSoFar(s) && |s| < Width(s[0])
    ensures more != [] && IsChar(s + more)
  {
    hide Width, ByteFits, IsChar;
    var n := Width(s[0]) - |s|;
    more := seq(n, j requires 0 <= j < n => Filler(s[0], |s| + j));
    var c := s + more;
    forall i | 1 <= i < Width(c[0]) && i < |c| ensures ByteFits(c[0], i, c[i]) {
      FillerFits(s[0], i);
    }
    assert c[..|c|] == c;
    FitsIsChar(c, |c|);
  }

  lemma FillerFits(lead: Byte, i: nat)
    ensures ByteFits(lead, i, Filler(lead, i))
  {
  }

  // ---- the specification: output and rest of one drain -------------------------------

  /** What the front of the input gives, and how many bytes that consumes: nothing while it may still become a
      character, the replacement for one malformed byte or for an unfinished end, or one whole character. */
  ghost function Front(s: seq<Byte>, final: bool): (r: (seq<Byte>, nat))
    requires s != []
    ensures r.1 <= |s|
  {
    if !FitsSoFar(s) then (REPLACEMENT, 1)
    else if |s| < Width(s[0]) then if final then (REPLACEMENT, |s|) else ([], 0)
    else (s[..Width(s[0])], Width(s[0]))
  }

  ghost function Drained(s: seq<Byte>, final: bool): (r: (seq<Byte>, seq<Byte>))
    decreases |s|
  {
    if s == [] || Front(s, final).1 == 0 then ([], s)
    else
      var (out, n) := Front(s, final);
      var r := Drained(s[n..], final);
      (out + r.0, r.1)
  }

  /** The repair of a whole input at once. */
  ghost function Repaired(s: seq<Byte>): seq<Byte> {
    Drained(s, true).0
  }

  lemma FitsExtends(p: seq<Byte>, q: seq<Byte>)
    requires p != []
    ensures FitsSoFar(p + q) ==> FitsSoFar(p)
    ensures |p| >= Width(p[0]) ==> (FitsSoFar(p + q) <==> FitsSoFar(p))
  {
    var s := p + q;
    assert forall i :: 0 <= i < |p| ==> s[i] == p[i];
    if FitsSoFar(s) {
      forall i | 1 <= i < Width(p[0]) && i < |p| ensures ByteFits(p[0], i, p[i]) {
        assert ByteFits(s[0], i, s[i]);
      }
    }
    if FitsSoFar(p) && |p| >= Width(p[0]) {
      forall i | 1 <= i < Width(s[0]) && i < |s| ensures ByteFits(s[0], i, s[i]) {
        assert ByteFits(p[0], i, p[i]);
      }
    }
  }

  /** What the front gives before the end of the input does not depend on what follows. */
  lemma FrontExtends(p: seq<Byte>, q: seq<Byte>, final: bool)
    requires p != [] && Front(p, false).1 > 0
    ensures Front(p + q, final) == Front(p, false)
    ensures (p + q)[Front(p, false).1..] == p[Front(p, false).1..] + q
  {
    FitsExtends(p, q);
    assert (p + q)[0] == p[0];
    hide FitsSoFar, Width;
    var n := Front(p, false).1;
    assert (p + q)[..n] == p[..n];
  }

  /** Draining early and continuing with the rest gives what draining everything later gives. */
  lemma {:induction false} DrainSplits(p: seq<Byte>, q: seq<Byte>, final: bool)
    ensures var (out, rest) := Drained(p, false);
            var later := Drained(rest + q, final);
      Drained(p + q, final) == (out + later.0, later.1)
    decreases |p|
  {
    hide Front;
    var later := Drained(Drained(p, false).1 + q, final);
    if p == [] || Front(p, false).1 == 0 {
      assert [] + later.0 == later.0;
    } else {
      FrontExtends(p, q, final);
      var (out, n) := Front(p, false);
      DrainSplits(p[n..], q, final);
      Associate(out, Drained(p[n..], false).0, later.0);
    }
  }

  lemma Associate(a: seq<Byte>, b: seq<Byte>, c: seq<Byte>)
    ensures a + (b + c) == a + b + c
  {
  }

  // ---- what the output is ---------------------------------------------------------------

  lemma WellFormedPrepend(c: seq<Byte>, s: seq<Byte>)
    requires IsChar(c) && WellFormed(s)
    ensures WellFormed(c + s)
  {
    assert (c + s)[..|c|] == c && (c + s)[|c|..] == s;
  }

  /** Whatever comes in, only well-formed UTF-8 goes out, and what is held back can still become a character. */
  lemma {:induction false} OutputWellFormed(s: seq<Byte>, final: bool)
    ensures WellFormed(Drained(s, final).0)
    ensures var rest := Drained(s, final).1;
      |rest| <= 3 && (rest == [] || (!final && Unfinished(rest)))
    decreases |s|
  {
    if s == [] {
    } else {
      FrontIsChar(s, final);
      hide Front, IsChar, Unfinished;
      var (out, n) := Front(s, final);
      if n > 0 {
        OutputWellFormed(s[n..], final);
        WellFormedPrepend(out, Drained(s[n..], final).0);
      }
    }
  }

  lemma FrontIsChar(s: seq<Byte>, final: bool)
    requires s != []
    ensures var (out, n) := Front(s, final);
      if n == 0 then !final && |s| <= 3 && Unfinished(s) else IsChar(out)
  {
    assert IsChar(REPLACEMENT);
    if FitsSoFar(s) {
      FitsIsUnfinished(s);
      if |s| >= Width(s[0]) {
        FitsIsChar(s, Width(s[0]));
      }
    }
  }

  /** Well-formed input passes through unchanged, with nothing held back. */
  lemma {:induction false} WellFormedUnchanged(s: seq<Byte>, final: bool)
    requires WellFormed(s)
    ensures Drained(s, final) == (s, [])
    decreases |s|
  {
    hide Front, FitsSoFar, IsChar;
    if s == [] {
    } else {
      var n :| 1 <= n <= |s| && IsChar(s[..n]) && WellFormed(s[n..]);
      WholeFront(s, n, final);
      WellFormedUnchanged(s[n..], final);
      assert s[..n] + s[n..] == s;
    }
  }

  lemma WholeFront(s: seq<Byte>, n: nat, final: bool)
    requires 1 <= n <= |s| && IsChar(s[..n])
    ensures Front(s, final) == (s[..n], n)
  {
    hide IsChar;
    FitsIsChar(s, n);
  }

  /** Exactly the well-formed inputs come out as they went in; in particular repairing is idempotent. */
  lemma UnchangedIffWellFormed(s: seq<Byte>)
    ensures Repaired(s) == s <==> WellFormed(s)
    ensures Repaired(Repaired(s)) == Repaired(s)
  {
    if WellFormed(s) {
      WellFormedUnchanged(s, true);
    }
    OutputWellFormed(s, true);
    WellFormedUnchanged(Repaired(s), true);
  }

  // ---- what becomes of each byte, in terms of the grammar ------------------------------------

  /** A character at the front stays, and repair goes on behind it. */
  lemma CharKept(c: seq<Byte>, t: seq<Byte>)
    requires IsChar(c)
    ensures Repaired(c + t) == c + Repaired(t)
  {
    hide IsChar;
    NotEmpty(c);
    assert (c + t)[..|c|] == c && (c + t)[|c|..] == t;
    WholeFront(c + t, |c|, true);
  }

  lemma NotEmpty(c: seq<Byte>)
    requires IsChar(c)
    ensures |c| > 0
  {
  }

  /** An unfinished character at the end becomes one replacement. */
  lemma EndReplaced(s: seq<Byte>)
    requires Unfinished(s)
    ensures Repaired(s) == [0xEF, 0xBF, 0xBD]
  {
    hide IsChar, FitsSoFar, Width;
    FitsIsUnfinished(s);
    assert s[|s|..] == [];
    assert Drained([], true).0 == [];
  }

  /** A byte that neither starts a character nor an unfinished end becomes one replacement, and repair goes on with the
      very next byte. */
  lemma ByteReplaced(s: seq<Byte>)
    requires s != [] && !Unfinished(s) && forall n :: 1 <= n <= |s| ==> !IsChar(s[..n])
    ensures Repaired(s) == [0xEF, 0xBF, 0xBD] + Repaired(s[1..])
  {
    hide IsChar, FitsSoFar, Width;
    FitsIsUnfinished(s);
    if FitsSoFar(s) {
      FrontWidth(s);
      FitsIsChar(s, Width(s[0]));
    }
    assert !FitsSoFar(s);
  }

  lemma FrontWidth(s: seq<Byte>)
    requires FitsSoFar(s)
    ensures Width(s[0]) >= 1
  {
  }

  // ---- the buffer -------------------------------------------------------------------------

  class Utf8Buffer {
    var pending: seq<Byte>
    /** Everything appended and everything returned since the last finish. */
    ghost var fed: seq<Byte>
    ghost var returned: seq<Byte>

    ghost predicate Valid()
      reads this
    {
      (returned, pending) == Drained(fed, false)
    }

    constructor ()
      ensures Valid() && fed == [] && returned == []
    {
      pending, fed, returned := [], [], [];
    }

    /** Returns what has become complete; at most three bytes, the beginning of a character, stay behind. */
    method Append(bytes: seq<Byte>) returns (output: seq<Byte>)
      requires Valid()
      modifies this
      ensures Valid() && fed == old(fed) + bytes && returned == old(returned) + output
      ensures WellFormed(output) && |pending| <= 3 && (pending == [] || Unfinished(pending))
    {
      DrainSplits(fed, bytes, false);
      pending := pending + bytes;
      OutputWellFormed(pending, false);
      output := Drain(false);
      fed := fed + bytes;
      returned := returned + output;
    }

    /** However the input was chunked, everything returned together is the repair of the whole input. */
    method Finish() returns (output: seq<Byte>)
      requires Valid()
      modifies this
      ensures Valid() && fed == [] && returned == []
      ensures old(returned) + output == Repaired(old(fed))
      ensures WellFormed(output) && pending == []
    {
      DrainSplits(fed, [], true);
      assert fed + [] == fed && pending + [] == pending;
      OutputWellFormed(pending, true);
      output := Drain(true);
      fed, returned := [], [];
    }

    method Drain(final: bool) returns (output: seq<Byte>)
      modifies `pending
      ensures (output, pending) == Drained(old(pending), final)
    {
      hide Width;
      output := [];
      var pos := 0;
      assert pending[0..] == pending;
      assert [] + Drained(pending, final).0 == Drained(pending, final).0;
      while pos < |pending|
        invariant 0 <= pos <= |pending| && pending == old(pending)
        invariant output + Drained(pending[pos..], final).0 == Drained(pending, final).0
        invariant Drained(pending[pos..], final).1 == Drained(pending, final).1
        decreases |pending| - pos
      {
        var width := Width(pending[pos]);
        var available := |pending| - pos;
        var valid := CheckBytes(pending[pos..], width);
        if valid && available < width && !final {
          break;
        }
        ghost var front := Front(pending[pos..], final);
        ghost var out0, pos0 := output, pos;
        if !valid || available < width {
          output := output + REPLACEMENT;
          pos := pos + if valid then available else 1;
        } else {
          output := output + pending[pos..pos + width];
          pos := pos + width;
        }
        assert output == out0 + front.0 && pos == pos0 + front.1;
        assert pending[pos0..][front.1..] == pending[pos..];
        Associate(out0, front.0, Drained(pending[pos..], final).0);
      }
      assert output + [] == output;
      pending := pending[pos..];
    }

    static method CheckBytes(s: seq<Byte>, width: nat) returns (valid: bool)
      requires s != [] && width == Width(s[0])
      ensures valid <==> FitsSoFar(s)
    {
      valid := width != 0;
      var i := 1;
      while valid && i < width && i < |s|
        invariant 1 <= i
        invariant valid ==> width != 0
        invariant valid ==> forall j :: 1 <= j < i && j < |s| && j < width ==> ByteFits(s[0], j, s[j])
        invariant !valid ==> !FitsSoFar(s)
        decreases |s| - i
      {
        valid := ByteFits(s[0], i, s[i]);
        i := i + 1;
      }
    }
  }
}

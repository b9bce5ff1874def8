/** Decoding mount paths (aiter_worker_limits.py, _decode_mountinfo_path): four replacements one after the
    other, against a decoder that reads the path once. */
module MountinfoPath {

  /** An escape: a backslash, three digits, and the character they stand for. */
  datatype Code = Code(a: char, b: char, c: char, out: char)

  predicate Digit(c: char) {
    '0' <= c <= '9'
  }

  /** The four escapes, in the order they are replaced. */
  function Escape(i: nat): (e: Code)
    requires i < 4
    ensures Digit(e.a) && Digit(e.b) && Digit(e.c)
    ensures i < 3 ==> e.out != '\\' && !Digit(e.out)
  {
    if i == 0 then Code('0', '4', '0', ' ')
    else if i == 1 then Code('0', '1', '1', '\t')
    else if i == 2 then Code('0', '1', '2', '\n')
    else Code('1', '3', '4', '\\')
  }

  predicate Starts(s: string, e: Code) {
    |s| >= 4 && s[0] == '\\' && s[1] == e.a && s[2] == e.b && s[3] == e.c
  }

  /** str.replace: every occurrence from left to right. */
  function Replace(s: string, e: Code): string {
    if s == [] then [] else if Starts(s, e) then [e.out] + Replace(s[4..], e) else [s[0]] + Replace(s[1..], e)
  }

  method DecodeMountinfoPath(path: string) returns (r: string)
    ensures r == Decoded(path, 4)
  {
    r := path;
    NothingDecoded(path);
    for i := 0 to 4
      invariant r == Decoded(path, i)
    {
      ReplaceAddsEscape(path, i);
      r := Replace(r, Escape(i));
    }
  }

  // ---------------------------------------------------------------------------
  // One pass
  // ---------------------------------------------------------------------------

  /** Which of the first n escapes starts here; n when none does. */
  function Which(s: string, n: nat): (i: nat)
    requires n <= 4
    ensures i <= n && (i < n ==> Starts(s, Escape(i)))
    ensures i == n ==> forall k :: 0 <= k < n ==> !Starts(s, Escape(k))
  {
    if n == 0 then 0
    else
      var i := Which(s, n - 1);
      if i < n - 1 then i else if Starts(s, Escape(n - 1)) then n - 1 else n
  }

  /** Reads the path once, decoding the first n escapes. */
  function Decoded(s: string, n: nat): string
    requires n <= 4
  {
    if s == [] then []
    else
      var i := Which(s, n);
      if i < n then [Escape(i).out] + Decoded(s[4..], n) else [s[0]] + Decoded(s[1..], n)
  }

  lemma {:induction false} NothingDecoded(s: string)
    ensures Decoded(s, 0) == s
  {
    if s != [] {
      NothingDecoded(s[1..]);
    }
  }

  lemma {:induction false} PlainHead(s: string, n: nat)
    requires n <= 4 && s != [] && s[0] != '\\'
    ensures Decoded(s, n) == [s[0]] + Decoded(s[1..], n)
  {
  }

  /** A digit in the decoded text was that digit in the path. */
  lemma {:induction false} DigitHead(s: string, n: nat)
    requires n <= 3 && Decoded(s, n) != [] && Digit(Decoded(s, n)[0])
    ensures s != [] && s[0] == Decoded(s, n)[0] && Decoded(s, n) == [s[0]] + Decoded(s[1..], n)
  {
  }

  /** The decoded text starts with the next escape only where the path does. */
  lemma {:induction false} StartsOnlyInPath(s: string, n: nat)
    requires n <= 3 && s != [] && Which(s, n) == n && Starts([s[0]] + Decoded(s[1..], n), Escape(n))
    ensures Starts(s, Escape(n))
  {
    DigitHead(s[1..], n);
    DigitHead(s[1..][1..], n);
    DigitHead(s[1..][1..][1..], n);
  }

  /** Where the path has the next escape, decoding the earlier ones leaves it there. */
  lemma {:induction false} EscapeStays(s: string, n: nat)
    requires n <= 3 && Starts(s, Escape(n)) && Which(s, n) == n
    ensures Decoded(s, n) == s[..4] + Decoded(s[4..], n)
  {
    PlainHead(s[1..], n);
    PlainHead(s[2..], n);
    PlainHead(s[3..], n);
    assert s[1..][1..] == s[2..] && s[2..][1..] == s[3..] && s[3..][1..] == s[4..];
    var rest := Decoded(s[4..], n);
    assert Decoded(s[1..], n) == [s[1]] + ([s[2]] + ([s[3]] + rest));
    assert s[..4] == [s[0], s[1], s[2], s[3]];
  }

  lemma {:induction false} OneMore(s: string, n: nat)
    requires n <= 3
    ensures Which(s, n) < n ==> Which(s, n + 1) == Which(s, n)
    ensures Which(s, n) == n ==> Which(s, n + 1) == if Starts(s, Escape(n)) then n else n + 1
  {
  }

  lemma {:induction false} ReplaceEscape(e: Code, head: string, rest: string)
    requires |head| == 4 && Starts(head + rest, e)
    ensures Replace(head + rest, e) == [e.out] + Replace(rest, e)
  {
    assert (head + rest)[4..] == rest;
  }

  lemma {:induction false} ReplacePlain(e: Code, c: char, rest: string)
    requires !Starts([c] + rest, e)
    ensures Replace([c] + rest, e) == [c] + Replace(rest, e)
  {
    assert ([c] + rest)[1..] == rest;
  }

  /** Replacing one more escape in the decoded text is decoding one more escape in the path. */
  lemma {:induction false} ReplaceAddsEscape(s: string, n: nat)
    requires n <= 3
    ensures Replace(Decoded(s, n), Escape(n)) == Decoded(s, n + 1)
    decreases |s|
  {
    if s != [] {
      OneMore(s, n);
      var i := Which(s, n);
      if i < n {
        ReplaceAddsEscape(s[4..], n);
        ReplacePlain(Escape(n), Escape(i).out, Decoded(s[4..], n));
      } else if Starts(s, Escape(n)) {
        ReplaceAddsEscape(s[4..], n);
        EscapeStays(s, n);
        ReplaceEscape(Escape(n), s[..4], Decoded(s[4..], n));
      } else {
        ReplaceAddsEscape(s[1..], n);
        if Starts([s[0]] + Decoded(s[1..], n), Escape(n)) {
          StartsOnlyInPath(s, n);
        }
        ReplacePlain(Escape(n), s[0], Decoded(s[1..], n));
      }
    }
  }

  // ---------------------------------------------------------------------------
  // Round trip
  // ---------------------------------------------------------------------------

  /** The escape of a character, 4 when it needs none. */
  function EscapeOf(c: char): nat {
    if c == ' ' then 0 else if c == '\t' then 1 else if c == '\n' then 2 else if c == '\\' then 3 else 4
  }

  /** What the kernel writes for a path. */
  function Encoded(path: string): string {
    if path == [] then []
    else
      var i := EscapeOf(path[0]);
      (if i < 4 then ['\\', Escape(i).a, Escape(i).b, Escape(i).c] else [path[0]]) + Encoded(path[1..])
  }

  lemma {:induction false} WhichIs(s: string, i: nat)
    requires i < 4 && Starts(s, Escape(i))
    ensures Which(s, 4) == i
  {
    var k := Which(s, 4);
    assert k < 4;
    assert Starts(s, Escape(k));
  }

  lemma {:induction false} DecodeEscape(i: nat, head: string, rest: string)
    requires i < 4 && |head| == 4 && Starts(head + rest, Escape(i))
    ensures Decoded(head + rest, 4) == [Escape(i).out] + Decoded(rest, 4)
  {
    WhichIs(head + rest, i);
    assert (head + rest)[4..] == rest;
  }

  /** Every path survives encoding and decoding, whatever it contains. */
  lemma {:induction false} DecodeEncoded(path: string)
    ensures Decoded(Encoded(path), 4) == path
    decreases |path|
  {
    if path != [] {
      DecodeEncoded(path[1..]);
      var i := EscapeOf(path[0]);
      var rest := Encoded(path[1..]);
      if i < 4 {
        DecodeEscape(i, ['\\', Escape(i).a, Escape(i).b, Escape(i).c], rest);
      } else {
        PlainHead([path[0]] + rest, 4);
        assert ([path[0]] + rest)[1..] == rest;
      }
    }
  }

  /** The four escapes by their texts; every other character stays. */
  lemma {:induction false} DecodedHead(rest: string)
    ensures Decoded("\\040" + rest, 4) == " " + Decoded(rest, 4)
    ensures Decoded("\\011" + rest, 4) == "\t" + Decoded(rest, 4)
    ensures Decoded("\\012" + rest, 4) == "\n" + Decoded(rest, 4)
    ensures Decoded("\\134" + rest, 4) == "\\" + Decoded(rest, 4)
  {
    DecodeEscape(0, "\\040", rest);
    DecodeEscape(1, "\\011", rest);
    DecodeEscape(2, "\\012", rest);
    DecodeEscape(3, "\\134", rest);
  }

  lemma {:induction false} OtherHeadStays(s: string)
    requires s != [] && !("\\040" <= s) && !("\\011" <= s) && !("\\012" <= s) && !("\\134" <= s)
    ensures Decoded(s, 4) == [s[0]] + Decoded(s[1..], 4)
  {
  }
}

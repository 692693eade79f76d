/** The octal escapes of /proc/mounts fields. */
module MountFields {
  import opened Seqs
  import opened Bytes

  const BACKSLASH: byte := 92

  // The byte that an escape's three octal digits stand for: space, tab, newline or backslash.
  function Meaning(digits: seq<byte>): Option<byte> {
    if digits == [48, 52, 48] then Some(32)
    else if digits == [48, 49, 49] then Some(9)
    else if digits == [48, 49, 50] then Some(10)
    else if digits == [49, 51, 52] then Some(92)
    else None
  }

  predicate StartsEscape(s: seq<byte>) {
    |s| >= 4 && s[0] == BACKSLASH && Meaning(s[1..4]).Some?
  }

  function Unescaped(s: seq<byte>): seq<byte> {
    if |s| == 0 then []
    else if StartsEscape(s) then [Meaning(s[1..4]).value] + Unescaped(s[4..])
    else [s[0]] + Unescaped(s[1..])
  }

  lemma UnescapedFrom(s: seq<byte>, i: nat)
    requires i < |s|
    ensures Unescaped(s[i..]) == if s[i] == BACKSLASH && i + 3 < |s| && Meaning(s[i + 1..i + 4]).Some?
                                 then [Meaning(s[i + 1..i + 4]).value] + Unescaped(s[i + 4..])
                                 else [s[i]] + Unescaped(s[i + 1..])
  {
    hide Meaning;
    var rest := s[i..];
    assert s[i + 1..] == rest[1..];
    if i + 3 < |s| {
      assert s[i + 1..i + 4] == rest[1..4] && s[i + 4..] == rest[4..];
    }
  }

  lemma Shift(r: seq<byte>, x: byte, rest: seq<byte>)
    ensures r + ([x] + rest) == r + [x] + rest
  {
  }

  lemma NoBackslash(s: seq<byte>)
    requires BACKSLASH !in s
    ensures Unescaped(s) == s
  {
    if |s| == 0 {
    } else {
      NoBackslash(s[1..]);
    }
  }

  lemma Ends(s: seq<byte>)
    ensures Unescaped(s[0..]) == Unescaped(s) && Unescaped(s[|s|..]) == []
  {
    assert s[0..] == s;
  }

  method UnescapeMountField(s: seq<byte>) returns (r: seq<byte>)
    ensures r == Unescaped(s)
  {
    hide Unescaped, Meaning;
    if BACKSLASH !in s {
      NoBackslash(s);
      return s;
    }
    Ends(s);
    r := [];
    var i := 0;
    while i < |s|
      invariant 0 <= i <= |s| && r + Unescaped(s[i..]) == Unescaped(s)
    {
      UnescapedFrom(s, i);
      if s[i] == BACKSLASH && i + 3 < |s| {
        var c := Meaning(s[i + 1..i + 4]);
        if c.Some? {
          Shift(r, c.value, Unescaped(s[i + 4..]));
          r := r + [c.value];
          i := i + 4;
          continue;
        }
      }
      Shift(r, s[i], Unescaped(s[i + 1..]));
      r := r + [s[i]];
      i := i + 1;
    }
  }

  // How the kernel writes a byte of a field.
  function Escape(b: byte): seq<byte> {
    if b == 32 then [BACKSLASH, 48, 52, 48]
    else if b == 9 then [BACKSLASH, 48, 49, 49]
    else if b == 10 then [BACKSLASH, 48, 49, 50]
    else if b == 92 then [BACKSLASH, 49, 51, 52]
    else [b]
  }

  function Escaped(s: seq<byte>): seq<byte> {
    if |s| == 0 then [] else Escape(s[0]) + Escaped(s[1..])
  }

  lemma UnescapeOne(b: byte, rest: seq<byte>)
    ensures Unescaped(Escape(b) + rest) == [b] + Unescaped(rest)
  {
    var e := Escape(b);
    assert (e + rest)[|e|..] == rest;
    if |e| == 4 {
      assert (e + rest)[1..4] == e[1..4];
    }
  }

  // Every field the kernel writes is read back as it was, also where it contains what looks like an escape.
  lemma {:induction false} UnescapeInvertsEscape(s: seq<byte>)
    ensures Unescaped(Escaped(s)) == s
  {
    if |s| == 0 {
    } else {
      hide Escape, Unescaped;
      UnescapeInvertsEscape(s[1..]);
      UnescapeOne(s[0], Escaped(s[1..]));
      assert [s[0]] + s[1..] == s;
    }
  }

  // Hence different fields are written differently.
  lemma EscapeInjective(s: seq<byte>, t: seq<byte>)
    requires Escaped(s) == Escaped(t)
    ensures s == t
  {
    UnescapeInvertsEscape(s);
    UnescapeInvertsEscape(t);
  }

  ghost predicate EscapeAt(s: seq<byte>, i: nat)
    requires i <= |s|
  {
    StartsEscape(s[i..])
  }

  lemma {:induction false} NoEscapes(s: seq<byte>)
    requires forall i :: 0 <= i <= |s| ==> !EscapeAt(s, i)
    ensures Unescaped(s) == s
  {
    if |s| == 0 {
    } else {
      assert s[0..] == s && !EscapeAt(s, 0);
      forall i | 0 <= i <= |s[1..]|
        ensures !EscapeAt(s[1..], i)
      {
        assert s[1..][i..] == s[i + 1..] && !EscapeAt(s, i + 1);
      }
      NoEscapes(s[1..]);
      assert [s[0]] + s[1..] == s;
    }
  }

  lemma {:induction false} EscapesShorten(s: seq<byte>)
    ensures |Unescaped(s)| <= |s|
    ensures |Unescaped(s)| == |s| ==> forall i :: 0 <= i <= |s| ==> !EscapeAt(s, i)
  {
    if |s| == 0 {
    } else {
      if StartsEscape(s) {
        EscapesShorten(s[4..]);
      } else {
        EscapesShorten(s[1..]);
        if |Unescaped(s)| == |s| {
          forall i | 0 <= i <= |s|
            ensures !EscapeAt(s, i)
          {
            if i == 0 {
              assert s[0..] == s;
            } else {
              assert s[i..] == s[1..][i - 1..] && !EscapeAt(s[1..], i - 1);
            }
          }
        }
      }
    }
  }

  // Unescaping changes a string exactly when one of the four escapes occurs in it; anything else is left alone.
  lemma UnescapeIsIdentity(s: seq<byte>)
    ensures Unescaped(s) == s <==> forall i :: 0 <= i <= |s| ==> !EscapeAt(s, i)
  {
    EscapesShorten(s);
    if forall i :: 0 <= i <= |s| ==> !EscapeAt(s, i) {
      NoEscapes(s);
    }
  }
}

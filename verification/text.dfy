/** Strings as pandas column labels: Python's `str.strip()`, the space to
  underscore rewrite applied to every header, and the code-point order that
  Python uses to compare (and pandas to sort) strings. */
module Text {

  /** The characters for which Python's `str.isspace()` holds; `str.strip()`
    with no argument removes exactly these at both ends. */
  predicate IsSpace(c: char) {
    || ('\t' <= c <= '\r')
    || ('\U{1C}' <= c <= '\U{1F}')
    || c == ' '
    || c == '\U{85}'
    || c == '\U{A0}'
    || c == '\U{1680}'
    || ('\U{2000}' <= c <= '\U{200A}')
    || c == '\U{2028}'
    || c == '\U{2029}'
    || c == '\U{202F}'
    || c == '\U{205F}'
    || c == '\U{3000}'
  }

  /** Number of whitespace characters at the start of `s`. */
  function LeadingSpaces(s: string): (n: nat)
    ensures n <= |s|
    ensures forall i :: 0 <= i < n ==> IsSpace(s[i])
    ensures n < |s| ==> !IsSpace(s[n])
  {
    if |s| == 0 || !IsSpace(s[0]) then 0 else 1 + LeadingSpaces(s[1..])
  }

  /** Number of whitespace characters at the end of `s`. */
  function TrailingSpaces(s: string): (n: nat)
    ensures n <= |s|
    ensures forall i :: |s| - n <= i < |s| ==> IsSpace(s[i])
    ensures n < |s| ==> !IsSpace(s[|s| - 1 - n])
  {
    if |s| == 0 || !IsSpace(s[|s| - 1]) then 0 else 1 + TrailingSpaces(s[..|s| - 1])
  }

  /** Python's `s.strip()`: the slice of `s` that starts after its leading
    whitespace and ends before its trailing whitespace. */
  function Strip(s: string): (r: string)
    ensures LeadingSpaces(s) + |r| <= |s|
    ensures r == s[LeadingSpaces(s)..LeadingSpaces(s) + |r|]
    ensures forall i :: LeadingSpaces(s) + |r| <= i < |s| ==> IsSpace(s[i])
    ensures |r| == 0 || (!IsSpace(r[0]) && !IsSpace(r[|r| - 1]))
  {
    var rest := s[LeadingSpaces(s)..];
    rest[..|rest| - TrailingSpaces(rest)]
  }

  /** A string without whitespace at either end is its own strip. */
  lemma StripUnchanged(s: string)
    requires |s| == 0 || (!IsSpace(s[0]) && !IsSpace(s[|s| - 1]))
    ensures Strip(s) == s
  {
    assert LeadingSpaces(s) == 0;
    assert s[0..] == s;
    assert TrailingSpaces(s) == 0;
  }

  /** `s.replace(' ', '_')`. */
  function ReplaceSpaces(s: string): (r: string)
    ensures |r| == |s|
    ensures ' ' !in r
    ensures forall i :: 0 <= i < |s| && s[i] != ' ' ==> r[i] == s[i]
    ensures forall i :: 0 <= i < |s| && s[i] == ' ' ==> r[i] == '_'
  {
    seq(|s|, i requires 0 <= i < |s| => if s[i] == ' ' then '_' else s[i])
  }

  /** The header clean-up applied to every column label at load time:
    strip, then turn each remaining space into an underscore. */
  function NormalizeHeader(h: string): (r: string)
    ensures |r| == |Strip(h)|
    ensures ' ' !in r
    ensures |r| == 0 || (!IsSpace(r[0]) && !IsSpace(r[|r| - 1]))
    ensures forall i :: 0 <= i < |r| ==> r[i] == (if Strip(h)[i] == ' ' then '_' else Strip(h)[i])
  {
    ReplaceSpaces(Strip(h))
  }

  /** Normalizing a header twice changes nothing more than normalizing it once. */
  lemma NormalizeHeaderIdempotent(h: string)
    ensures NormalizeHeader(NormalizeHeader(h)) == NormalizeHeader(h)
  {
    var n := NormalizeHeader(h);
    StripUnchanged(n);
    ReplaceUnchanged(n);
  }

  /** A string with no space is left alone by the rewrite. */
  lemma ReplaceUnchanged(s: string)
    requires ' ' !in s
    ensures ReplaceSpaces(s) == s
  {
  }

  /** The origin/destination header becomes the name the route code looks up. */
  lemma NormalizeOriginHeader()
    ensures NormalizeHeader("Origen / Destino") == "Origen_/_Destino"
  {
    var h := "Origen / Destino";
    StripUnchanged(h);
    var r := ReplaceSpaces(h);
    assert forall i :: 0 <= i < |r| ==> r[i] == "Origen_/_Destino"[i];
  }

  /** Surrounding whitespace goes, the inner space becomes an underscore. */
  lemma NormalizeDateHeader()
    ensures NormalizeHeader(" Fecha UTC\t") == "Fecha_UTC"
  {
    var h := " Fecha UTC\t";
    assert LeadingSpaces(h) == 1;
    var rest := h[1..];
    assert rest == "Fecha UTC\t";
    assert TrailingSpaces(rest) == 1;
    assert Strip(h) == "Fecha UTC";
    var r := ReplaceSpaces("Fecha UTC");
    assert forall i :: 0 <= i < |r| ==> r[i] == "Fecha_UTC"[i];
  }

  /** Python's `a < b` on strings: lexicographic order of code points, a proper
    prefix coming first. */
  predicate Below(a: string, b: string) {
    if |a| == 0 then |b| > 0
    else |b| > 0 && (a[0] < b[0] || (a[0] == b[0] && Below(a[1..], b[1..])))
  }

  /** Comparing two non-empty strings: the first characters, then the rest. */
  lemma BelowCons(a: string, b: string)
    requires |a| > 0 && |b| > 0
    ensures Below(a, b) <==> a[0] < b[0] || (a[0] == b[0] && Below(a[1..], b[1..]))
  {
  }

  lemma {:induction false} BelowIrreflexive(a: string)
    ensures !Below(a, a)
  {
    if |a| > 0 {
      BelowIrreflexive(a[1..]);
    }
  }

  lemma {:induction false} BelowTransitive(a: string, b: string, c: string)
    requires Below(a, b) && Below(b, c)
    ensures Below(a, c)
  {
    if |a| > 0 && a[0] == b[0] && b[0] == c[0] {
      BelowTransitive(a[1..], b[1..], c[1..]);
    }
  }

  /** Two different strings are always ordered one way or the other, and never both. */
  lemma {:induction false} BelowTotal(a: string, b: string)
    ensures a != b ==> Below(a, b) || Below(b, a)
    ensures !(Below(a, b) && Below(b, a))
  {
    if |a| > 0 && |b| > 0 && a[0] == b[0] {
      BelowTotal(a[1..], b[1..]);
      if a != b {
        assert a == [a[0]] + a[1..] && b == [b[0]] + b[1..];
      }
    }
  }

  /** Comparing two strings that start with equally long parts and share a
    middle: the first parts decide, and only when they are equal do the last parts. */
  lemma {:induction false} BelowConcat(a: string, b: string, m: string, t: string, u: string)
    requires |a| == |b|
    ensures Below(a + m + t, b + m + u) <==> Below(a, b) || (a == b && Below(t, u))
    decreases |a| + |m|
  {
    if |a| > 0 {
      assert (a + m + t)[0] == a[0] && (b + m + u)[0] == b[0];
      assert (a + m + t)[1..] == a[1..] + m + t;
      assert (b + m + u)[1..] == b[1..] + m + u;
      BelowConcat(a[1..], b[1..], m, t, u);
      if a[0] == b[0] && a[1..] == b[1..] {
        assert a == [a[0]] + a[1..] && b == [b[0]] + b[1..];
      }
    } else if |m| > 0 {
      assert a + m + t == m + t && b + m + u == m + u;
      assert (m + t)[0] == m[0] && (m + u)[0] == m[0];
      assert (m + t)[1..] == [] + m[1..] + t && (m + u)[1..] == [] + m[1..] + u;
      BelowConcat([], [], m[1..], t, u);
    } else {
      assert a + m + t == t && b + m + u == u;
    }
  }
}

/**
 * QString::arg(const QString &a) as the launcher uses it to build paths: the
 * lowest-numbered place marker of the template is found and every occurrence
 * of it is replaced by `a`. A place marker is '%', an optional 'L', and one or
 * two digits (so "%0" .. "%99"). Only ASCII digits are modelled.
 *
 * Substitution is not hygienic: the text produced by one `arg` call is scanned
 * again by the next, so markers that arrive inside an argument are replaced too.
 */
module Placeholders {
  import opened Options
  import opened Text

  function DigitValue(c: char): nat
    requires IsAsciiDigit(c)
  {
    c as int - '0' as int
  }

  /** The place marker that begins `s`, as (number, width in characters). */
  function MarkerAt(s: string): (r: Option<(nat, nat)>)
    ensures r.Some? ==> 2 <= r.value.1 <= |s| && s[0] == '%' && r.value.0 < 100
  {
    if |s| == 0 || s[0] != '%' then None
    else
      var d := if 1 < |s| && s[1] == 'L' then 2 else 1;
      if d < |s| && IsAsciiDigit(s[d]) then
        if d + 1 < |s| && IsAsciiDigit(s[d + 1]) then
          Some((10 * DigitValue(s[d]) + DigitValue(s[d + 1]), d + 2))
        else
          Some((DigitValue(s[d]), d + 1))
      else
        None
  }

  function MinOf(n: nat, m: Option<nat>): nat {
    if m.Some? && m.value < n then m.value else n
  }

  /** The lowest marker number occurring in `s`, scanning left to right. */
  function LowestMarker(s: string): Option<nat>
    decreases |s|
  {
    if s == [] then None
    else match MarkerAt(s)
      case Some((n, w)) => Some(MinOf(n, LowestMarker(s[w..])))
      case None => LowestMarker(s[1..])
  }

  /** `s` with every marker numbered `n` replaced by `a`; the rest is copied. */
  function ReplaceMarker(s: string, n: nat, a: string): string
    decreases |s|
  {
    if s == [] then []
    else match MarkerAt(s)
      case Some((m, w)) => (if m == n then a else s[..w]) + ReplaceMarker(s[w..], n, a)
      case None => [s[0]] + ReplaceMarker(s[1..], n, a)
  }

  /** QString::arg: a template with no marker comes back unchanged. */
  function Arg(s: string, a: string): string {
    match LowestMarker(s)
    case None => s
    case Some(n) => ReplaceMarker(s, n, a)
  }

  /** The character that introduces a place marker; text avoiding it holds no marker. */
  const Percent: set<char> := {'%'}

  predicate StartsWithDigit(s: string) {
    s != [] && IsAsciiDigit(s[0])
  }

  /** Text without '%' holds no marker and is copied through verbatim. */
  lemma {:induction false} PercentFreePrefix(p: string, q: string, n: nat, a: string)
    requires Avoids(p, Percent)
    ensures LowestMarker(p + q) == LowestMarker(q)
    ensures ReplaceMarker(p + q, n, a) == p + ReplaceMarker(q, n, a)
    decreases |p|
  {
    if p == [] {
      assert p + q == q;
    } else {
      var pq := p + q;
      assert pq[0] == p[0] && p[0] !in Percent;
      assert MarkerAt(pq) == None;
      assert pq[1..] == p[1..] + q;
      assert Avoids(p[1..], Percent);
      PercentFreePrefix(p[1..], q, n, a);
      assert LowestMarker(pq) == LowestMarker(pq[1..]);
      assert ReplaceMarker(pq, n, a) == [pq[0]] + ReplaceMarker(pq[1..], n, a);
    }
  }

  /** A '%'-free string is left alone by `arg`. */
  lemma PercentFreeUnchanged(s: string, n: nat, a: string)
    requires Avoids(s, Percent)
    ensures LowestMarker(s) == None
    ensures ReplaceMarker(s, n, a) == s
  {
    PercentFreePrefix(s, [], n, a);
    assert s + [] == s;
  }

  /** "%d" followed by a non-digit is a single-digit marker of width 2. */
  lemma MarkerStep(d: char, q: string, n: nat, a: string)
    requires IsAsciiDigit(d)
    requires !StartsWithDigit(q)
    ensures LowestMarker(['%', d] + q) == Some(MinOf(DigitValue(d), LowestMarker(q)))
    ensures ReplaceMarker(['%', d] + q, n, a)
         == (if DigitValue(d) == n then a else ['%', d]) + ReplaceMarker(q, n, a)
  {
    var t := ['%', d] + q;
    assert MarkerAt(t) == Some((DigitValue(d), 2));
    assert t[2..] == q && t[..2] == ['%', d];
  }

  /** On "%1" M "%2" S the lowest marker is 1, and replacing it touches nothing else. */
  lemma FirstMarkerTail(m: string, s: string, a: string)
    requires Avoids(m, Percent) && Avoids(s, Percent)
    requires !StartsWithDigit(m) && !StartsWithDigit(s)
    ensures LowestMarker(['%', '1'] + (m + (['%', '2'] + s))) == Some(1)
    ensures ReplaceMarker(['%', '1'] + (m + (['%', '2'] + s)), 1, a) == a + (m + (['%', '2'] + s))
  {
    var tail2 := ['%', '2'] + s;
    var mid := m + tail2;
    assert !StartsWithDigit(mid) by {
      if m == [] { assert mid == tail2; }
      else { assert mid[0] == m[0]; }
    }
    PercentFreeUnchanged(s, 1, a);
    MarkerStep('2', s, 1, a);
    PercentFreePrefix(m, tail2, 1, a);
    MarkerStep('1', mid, 1, a);
  }

  /**
   * First `arg` on a two-marker template P "%1" M "%2" S whose literal parts
   * hold no '%': the argument lands where "%1" was, whatever it contains.
   */
  lemma ArgFirstMarker(p: string, m: string, s: string, a: string)
    requires Avoids(p, Percent) && Avoids(m, Percent) && Avoids(s, Percent)
    requires !StartsWithDigit(m) && !StartsWithDigit(s)
    ensures Arg(p + "%1" + m + "%2" + s, a) == p + a + m + "%2" + s
  {
    var mid := m + (['%', '2'] + s);
    var tail1 := ['%', '1'] + mid;
    assert "%1" == ['%', '1'] && "%2" == ['%', '2'];
    assert p + "%1" + m + "%2" + s == p + tail1;
    FirstMarkerTail(m, s, a);
    PercentFreePrefix(p, tail1, 1, a);
    assert p + a + m + "%2" + s == p + (a + mid);
  }

  /** Second `arg` on X "%2" S with X and S free of '%': a plain splice. */
  lemma ArgSecondMarker(x: string, s: string, b: string)
    requires Avoids(x, Percent) && Avoids(s, Percent)
    requires !StartsWithDigit(s)
    ensures Arg(x + "%2" + s, b) == x + b + s
  {
    var tail := ['%', '2'] + s;
    assert "%2" == ['%', '2'];
    assert x + "%2" + s == x + tail;
    PercentFreeUnchanged(s, 2, b);
    MarkerStep('2', s, 2, b);
    PercentFreePrefix(x, tail, 2, b);
    assert LowestMarker(tail) == Some(2);
    assert ReplaceMarker(tail, 2, b) == b + s;
    assert x + b + s == x + (b + s);
  }

  /**
   * Chained `arg(a).arg(b)` on P "%1" M "%2" S splices both arguments in place
   * exactly when nothing the first argument brings in is read as a marker;
   * a first argument free of '%' is sufficient.
   */
  lemma ArgTwoMarkers(p: string, m: string, s: string, a: string, b: string)
    requires Avoids(p, Percent) && Avoids(m, Percent) && Avoids(s, Percent)
    requires Avoids(a, Percent)
    requires !StartsWithDigit(m) && !StartsWithDigit(s)
    ensures Arg(Arg(p + "%1" + m + "%2" + s, a), b) == p + a + m + b + s
  {
    ArgFirstMarker(p, m, s, a);
    var x := p + a + m;
    assert Avoids(x, Percent) by {
      forall i | 0 <= i < |x| ensures x[i] !in Percent {
        if i < |p| { assert x[i] == p[i]; }
        else if i < |p| + |a| { assert x[i] == a[i - |p|]; }
        else { assert x[i] == m[i - |p| - |a|]; }
      }
    }
    assert p + a + m + "%2" + s == x + "%2" + s;
    ArgSecondMarker(x, s, b);
  }

  /**
   * When the first argument ends in "%1" after a '%'-free lead D, the second
   * argument takes the place of that "%1" and the template's "%2" stays literal.
   */
  lemma MarkerArgumentSwallowsSecond(p: string, m: string, s: string, d: string, a: string, b: string)
    requires Avoids(p, Percent) && Avoids(m, Percent) && Avoids(s, Percent)
    requires !StartsWithDigit(m) && !StartsWithDigit(s)
    requires Avoids(d, Percent) && a == d + "%1"
    ensures Arg(Arg(p + "%1" + m + "%2" + s, a), b) == p + d + b + m + "%2" + s
  {
    ArgFirstMarker(p, m, s, a);
    var pd := p + d;
    assert Avoids(pd, Percent) by {
      forall i | 0 <= i < |pd| ensures pd[i] !in Percent {
        if i < |p| { assert pd[i] == p[i]; } else { assert pd[i] == d[i - |p|]; }
      }
    }
    assert p + a + m + "%2" + s == pd + "%1" + m + "%2" + s;
    ArgFirstMarker(pd, m, s, b);
    assert pd + b + m + "%2" + s == p + d + b + m + "%2" + s;
  }
}

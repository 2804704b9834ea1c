/** What trimming and decimal notation come to. */
module JsTextProofs {
  import opened JsText

  predicate AllBlanks(s: Text) { forall i :: 0 <= i < |s| ==> IsBlank(s[i]) }

  /** Blanks around, and none at either end of what is between them. */
  predicate IsCore(s: Text, t: Text, n: nat) {
    && n + |t| <= |s| && s[n..n + |t|] == t && AllBlanks(s[..n]) && AllBlanks(s[n + |t|..])
    && (t != [] ==> !IsBlank(t[0]) && !IsBlank(t[|t| - 1])) && (t == [] ==> n == |s|)
  }

  lemma {:induction false} TrimStartDrops(s: Text) returns (n: nat)
    ensures n <= |s| && TrimStart(s) == s[n..] && AllBlanks(s[..n]) && (n < |s| ==> !IsBlank(s[n]))
  {
    n := 0;
    if s != [] && IsBlank(s[0]) {
      n := TrimStartDrops(s[1..]);
      assert s[1..][n..] == s[n + 1..] && s[..n + 1] == [s[0]] + s[1..][..n];
      n := n + 1;
    }
  }

  lemma {:induction false} TrimEndDrops(s: Text) returns (n: nat)
    ensures n <= |s| && TrimEnd(s) == s[..n] && AllBlanks(s[n..]) && (n > 0 ==> !IsBlank(s[n - 1]))
  {
    n := |s|;
    if s != [] && IsBlank(s[|s| - 1]) {
      n := TrimEndDrops(s[..|s| - 1]);
      assert s[n..] == s[..|s| - 1][n..] + [s[|s| - 1]] && s[..|s| - 1][..n] == s[..n];
    }
  }

  /** Trimming leaves what is between the blanks at either end, and there is only one such stretch. */
  lemma TrimExactly(s: Text, t: Text)
    ensures t == Trim(s) <==> exists n :: 0 <= n <= |s| && IsCore(s, t, n)
  {
    var a := TrimStartDrops(s);
    var b := TrimEndDrops(s[a..]);
    var trimmed := Trim(s);
    assert trimmed == s[a..][..b] == s[a..a + b];
    assert s[a + b..] == s[a..][b..];
    assert forall i :: a + b <= i < |s| ==> s[a + b..][i - a - b] == s[i];
    if trimmed != [] { assert trimmed[0] == s[a] && trimmed[|trimmed| - 1] == s[a..][b - 1]; }
    assert IsCore(s, trimmed, a);
    if n :| 0 <= n <= |s| && IsCore(s, t, n) { OneCore(s, t, n, trimmed, a); }
  }

  lemma OneCore(s: Text, t: Text, n: nat, u: Text, m: nat)
    requires IsCore(s, t, n) && IsCore(s, u, m)
    ensures t == u
  {
    NotBefore(s, t, n, u, m);
    NotBefore(s, u, m, t, n);
  }

  /** The first stretch starts, and ends, where the second does or outside it. */
  lemma NotBefore(s: Text, t: Text, n: nat, u: Text, m: nat)
    requires IsCore(s, t, n) && IsCore(s, u, m)
    ensures t != [] ==> m <= n && n + |t| <= m + |u|
  {
    assert forall i :: 0 <= i < m ==> s[..m][i] == s[i];
    assert forall i :: m + |u| <= i < |s| ==> s[m + |u|..][i - m - |u|] == s[i];
    assert t != [] ==> s[n] == t[0] && s[n + |t| - 1] == t[|t| - 1];
  }

  /** The number a run of digits stands for. */
  function ValueOf(t: Text): nat
    requires forall i :: 0 <= i < |t| ==> IsDigit(t[i])
  {
    if t == [] then 0
    else
      var d := t[|t| - 1];
      assert IsDigit(d);
      ValueOf(t[..|t| - 1]) * 10 + (d as int - 0x30)
  }

  /** `Decimal` writes the number in digits, with no zero before others. */
  lemma {:induction false} DecimalExactly(n: nat)
    ensures var t := Decimal(n); t != [] && (forall i :: 0 <= i < |t| ==> IsDigit(t[i])) && ValueOf(t) == n && (n > 0 ==> t[0] != 0x30)
    ensures n == 0 ==> Decimal(n) == [0x30]
  {
    var t := Decimal(n);
    if n >= 10 {
      DecimalExactly(n / 10);
      assert t == Decimal(n / 10) + [0x30 + (n % 10) as CodeUnit];
      assert t[..|t| - 1] == Decimal(n / 10);
    } else {
      assert t == [0x30 + (n % 10) as CodeUnit] && t[..0] == [];
    }
  }
}

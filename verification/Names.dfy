/** The composed names and keys of the controller, and when they can be told apart. */
module Names {

  /******* Joining and splitting *******/

  // One step of strings.Join with "." and of utils.Keyname, which joins with "/".
  function Dot(head: string, rest: string): string { head + "." + rest }
  function Slash(head: string, rest: string): string { head + "/" + rest }

  function IndexOf(s: string, c: char): (i: nat)
    ensures i <= |s| && c !in s[..i] && (i < |s| ==> s[i] == c)
    decreases |s|
  {
    if s == "" || s[0] == c then 0
    else
      var j := IndexOf(s[1..], c);
      assert s[..1 + j] == [s[0]] + s[1..][..j];
      1 + j
  }

  // strings.Split
  function Split(s: string, c: char): (parts: seq<string>)
    ensures |parts| >= 1
    decreases |s|
  {
    var i := IndexOf(s, c);
    if i == |s| then [s[..i]] else [s[..i]] + Split(s[i + 1..], c)
  }

  // strings.Join
  function Join(parts: seq<string>, c: char): string {
    if |parts| == 0 then ""
    else if |parts| == 1 then parts[0]
    else parts[0] + [c] + Join(parts[1..], c)
  }

  // A separator-free head can be read back.
  lemma HeadInjective(a: string, x: string, b: string, y: string, c: char)
    requires c !in a && c !in b
    requires a + [c] + x == b + [c] + y
    ensures a == b && x == y
  {
    var s, t := a + [c] + x, b + [c] + y;
    assert s[|a|] == c && t[|b|] == c;
    assert forall k :: 0 <= k < |a| ==> s[k] == a[k] && a[k] != c;
    assert forall k :: 0 <= k < |b| ==> t[k] == b[k] && b[k] != c;
    assert |a| == |b|;
    assert a == s[..|a|] && b == t[..|b|];
    assert x == s[|a| + 1..] && y == t[|b| + 1..];
  }

  lemma DotInjective(a: string, x: string, b: string, y: string)
    requires '.' !in a && '.' !in b && Dot(a, x) == Dot(b, y)
    ensures a == b && x == y
  {
    HeadInjective(a, x, b, y, '.');
  }

  lemma SlashInjective(a: string, x: string, b: string, y: string)
    requires '/' !in a && '/' !in b && Slash(a, x) == Slash(b, y)
    ensures a == b && x == y
  {
    HeadInjective(a, x, b, y, '/');
  }

  lemma SplitHead(a: string, x: string, c: char)
    requires c !in a
    ensures Split(a + [c] + x, c) == [a] + Split(x, c)
  {
    var s := a + [c] + x;
    var i := IndexOf(s, c);
    assert s[|a|] == c;
    assert forall k :: 0 <= k < |a| ==> s[k] == a[k] && a[k] != c;
    assert forall k :: 0 <= k < i ==> s[..i][k] == s[k];
    assert i == |a|;
    assert s[..i] == a && s[i + 1..] == x;
  }

  lemma SplitSlash(a: string, x: string)
    requires '/' !in a
    ensures Split(Slash(a, x), '/') == [a] + Split(x, '/')
  {
    SplitHead(a, x, '/');
  }

  lemma SplitFree(s: string, c: char)
    requires c !in s
    ensures Split(s, c) == [s]
  {
    assert s[..|s|] == s;
  }

  lemma {:induction false} SplitLast(t: string, n: string, c: char)
    requires c !in n
    ensures Split(t + [c] + n, c) == Split(t, c) + [n]
    decreases |t|
  {
    var i := IndexOf(t, c);
    if i == |t| {
      assert t[..i] == t;
      SplitFree(t, c);
      SplitHead(t, n, c);
      SplitFree(n, c);
    } else {
      var a, rest := t[..i], t[i + 1..];
      assert t == a + [c] + rest;
      assert t + [c] + n == a + [c] + (rest + [c] + n);
      SplitHead(a, rest + [c] + n, c);
      SplitHead(a, rest, c);
      SplitLast(rest, n, c);
    }
  }

  lemma JoinHead(a: string, parts: seq<string>, c: char)
    requires |parts| >= 1
    ensures Join([a] + parts, c) == a + [c] + Join(parts, c)
  {
    assert ([a] + parts)[1..] == parts;
  }

  lemma CutAt(s: string, i: nat)
    requires i < |s|
    ensures s[..i] + [s[i]] + s[i + 1..] == s
  {
  }

  lemma {:induction false} JoinSplit(s: string, c: char)
    ensures Join(Split(s, c), c) == s
    decreases |s|
  {
    var i := IndexOf(s, c);
    if i == |s| {
      assert s[..i] == s;
    } else {
      JoinSplit(s[i + 1..], c);
      JoinHead(s[..i], Split(s[i + 1..], c), c);
      CutAt(s, i);
    }
  }

  /******* Keys *******/

  // utils.Keyname of a namespaced object.
  function Key(ns: string, name: string): string { Slash(ns, name) }

  lemma KeyInjective(ns: string, name: string, ns2: string, name2: string)
    requires '/' !in ns && '/' !in ns2 && Key(ns, name) == Key(ns2, name2)
    ensures ns == ns2 && name == name2
  {
    SlashInjective(ns, name, ns2, name2);
  }

  // Reading a key back, as ParseServices does, gives the namespace and name it was made of.
  lemma KeyParts(ns: string, name: string)
    requires '/' !in ns && '/' !in name
    ensures Split(Key(ns, name), '/') == [ns, name]
  {
    SplitHead(ns, name, '/');
    SplitFree(name, '/');
  }

  /******* Resource names *******/

  // typeAndName: the last "/" separates a resource's type from its name.
  function TypeAndName(s: string): (string, string) {
    var a := Split(s, '/');
    (Join(a[..|a| - 1], '/'), a[|a| - 1])
  }

  lemma TypeAndNameOf(t: string, n: string)
    requires '/' !in n
    ensures TypeAndName(Slash(t, n)) == (t, n)
  {
    SplitLast(t, n, '/');
    var a := Split(Slash(t, n), '/');
    assert a[..|a| - 1] == Split(t, '/');
    JoinSplit(t, '/');
  }

  lemma {:induction false} AtLastSlash(s: string) returns (t: string, n: string)
    requires '/' in s
    ensures s == Slash(t, n) && '/' !in n
  {
    var init, c := s[..|s| - 1], s[|s| - 1];
    if c == '/' {
      t, n := init, "";
    } else {
      t, n := AtLastSlash(init);
      n := n + [c];
    }
  }

  function HrName(ns: string, name: string): string {
    Dot("hr", Dot(ns, name))
  }

  // gwListenerName and hrParentName build the same shape.
  function ListenerName(ns: string, gateway: string, section: string): string {
    Dot("gw", Dot(ns, Dot(gateway, section)))
  }

  function TlsName(ns: string, name: string): string {
    Dot("scrt", Dot(ns, name))
  }

  // fmt.Sprintf("%d")
  function Digits(n: nat): (s: string)
    ensures s != "" && '.' !in s && '/' !in s && (|s| == 1 <==> n < 10)
  {
    var d := ["0123456789"[n % 10]];
    if n < 10 then d else Digits(n / 10) + d
  }

  function VirtualName(listenerName: string, i: nat): string {
    listenerName + "." + Digits(i)
  }

  lemma {:induction false} DigitsInjective(m: nat, n: nat)
    requires Digits(m) == Digits(n)
    ensures m == n
    decreases m
  {
    var a, b := Digits(m), Digits(n);
    var digits := "0123456789";
    assert a[|a| - 1] == digits[m % 10] && b[|b| - 1] == digits[n % 10];
    assert m % 10 == n % 10;
    if m >= 10 && n >= 10 {
      assert a[..|a| - 1] == Digits(m / 10) && b[..|b| - 1] == Digits(n / 10);
      DigitsInjective(m / 10, n / 10);
    }
  }

  lemma HrNameInjective(ns: string, name: string, ns2: string, name2: string)
    requires '.' !in ns && '.' !in ns2 && HrName(ns, name) == HrName(ns2, name2)
    ensures ns == ns2 && name == name2
  {
    DotInjective("hr", Dot(ns, name), "hr", Dot(ns2, name2));
    DotInjective(ns, name, ns2, name2);
  }

  lemma TlsNameInjective(ns: string, name: string, ns2: string, name2: string)
    requires '.' !in ns && '.' !in ns2 && TlsName(ns, name) == TlsName(ns2, name2)
    ensures ns == ns2 && name == name2
  {
    DotInjective("scrt", Dot(ns, name), "scrt", Dot(ns2, name2));
    DotInjective(ns, name, ns2, name2);
  }

  // A text with a single dot is split by it in one way.
  lemma OneDot(a: string, x: string, b: string, y: string)
    requires '.' !in b && '.' !in y && Dot(a, x) == Dot(b, y)
    ensures a == b && x == y
  {
    var s, t := Dot(a, x), Dot(b, y);
    assert s[|a|] == '.';
    assert forall k :: 0 <= k < |t| && k != |b| ==> t[k] == if k < |b| then b[k] else y[k - |b| - 1];
    assert forall k :: 0 <= k < |b| ==> b[k] != '.';
    assert forall k :: 0 <= k < |y| ==> y[k] != '.';
    assert |a| == |b|;
    assert a == s[..|a|] && x == s[|a| + 1..];
    assert b == t[..|b|] && y == t[|b| + 1..];
  }

  // Two sections of one gateway, whatever dots its names have.
  lemma SectionInjective(ns: string, gateway: string, section: string, section2: string)
    requires ListenerName(ns, gateway, section) == ListenerName(ns, gateway, section2)
    ensures section == section2
  {
    var p := "gw." + ns + "." + gateway + ".";
    assert ListenerName(ns, gateway, section) == p + section;
    assert ListenerName(ns, gateway, section2) == p + section2;
    assert section == (p + section)[|p|..] && section2 == (p + section2)[|p|..];
  }

  lemma ListenerNameInjective(ns: string, g: string, l: string, ns2: string, g2: string, l2: string)
    requires '.' !in ns && '.' !in ns2 && '.' !in g && '.' !in g2
    requires ListenerName(ns, g, l) == ListenerName(ns2, g2, l2)
    ensures ns == ns2 && g == g2 && l == l2
  {
    DotInjective("gw", Dot(ns, Dot(g, l)), "gw", Dot(ns2, Dot(g2, l2)));
    DotInjective(ns, Dot(g, l), ns2, Dot(g2, l2));
    DotInjective(g, l, g2, l2);
  }

  lemma VirtualNameInjective(a: string, i: nat, b: string, j: nat)
    requires VirtualName(a, i) == VirtualName(b, j)
    ensures a == b && i == j
  {
    var s, t := VirtualName(a, i), VirtualName(b, j);
    assert s[|a|] == '.' && t[|b|] == '.';
    assert forall k :: |a| < k < |s| ==> s[k] == Digits(i)[k - |a| - 1];
    assert forall k :: |b| < k < |t| ==> t[k] == Digits(j)[k - |b| - 1];
    assert |a| == |b|;
    assert s[..|a|] == a && t[..|b|] == b;
    assert s[|a| + 1..] == Digits(i) && t[|b| + 1..] == Digits(j);
    DigitsInjective(i, j);
  }
}

/** The two manglers that must agree on the name of a symbol in a finalized program. */
module SymbolNames {

  predicate PairAt(s: string, i: nat) {
    i + 1 < |s| && s[i] == ':' && s[i + 1] == ':'
  }

  predicate HasPair(s: string) {
    exists i :: 0 <= i < |s| && PairAt(s, i)
  }

  /** Every "::", from left to right, becomes a dot. */
  function Dotted(s: string): string {
    if s == "" then ""
    else if PairAt(s, 0) then "." + Dotted(s[2..])
    else [s[0]] + Dotted(s[1..])
  }

  function WithoutAmpersands(s: string): (r: string)
    ensures '&' !in r
    ensures '&' !in s ==> r == s
  {
    if s == "" then ""
    else if s[0] == '&' then WithoutAmpersands(s[1..])
    else [s[0]] + WithoutAmpersands(s[1..])
  }

  const PREFIX: string := "gccbrig."

  function InsertAtOne(s: string, t: string): string
    requires s != ""
  {
    [s[0]] + t + s[1..]
  }

  /** The name `findSymbol` searches for. */
  function SearchedName(name: string): string
    requires name != ""
  {
    var dotted := Dotted(name);
    var plain := [dotted[0]] + WithoutAmpersands(dotted[1..]);
    if HasPair(name) then InsertAtOne(plain, PREFIX) else plain
  }

  /** The name `hsa_executable_get_symbol` searches for; an absent module is the empty string. */
  function ExecutableName(moduleName: string, symbolName: string): string
    requires symbolName != ""
  {
    var name := if symbolName[0] != '&' then "&" + symbolName else symbolName;
    if moduleName == "" then name
    else InsertAtOne(InsertAtOne(name, moduleName[1..] + "."), PREFIX)
  }

  // The rewriting.

  /** Dotting works on the two sides of a cut that does not split a "::". */
  lemma {:induction false} DottedConcat(a: string, b: string)
    requires a == "" || b == "" || a[|a| - 1] != ':' || b[0] != ':'
    ensures Dotted(a + b) == Dotted(a) + Dotted(b)
    decreases |a|
  {
    if a == "" {
      assert a + b == b;
    } else if b == "" {
      assert a + b == a;
    } else {
      var k := if PairAt(a, 0) then 2 else 1;
      DottedConcat(a[k..], b);
      DottedStep(a, b, k, Dotted(a[k..]), Dotted(b));
    }
  }

  lemma DottedStep(a: string, b: string, k: nat, da: string, db: string)
    requires a != "" && b != "" && (a[|a| - 1] != ':' || b[0] != ':')
    requires k == if PairAt(a, 0) then 2 else 1
    requires da == Dotted(a[k..]) && Dotted(a[k..] + b) == da + db
    ensures Dotted(a + b) == Dotted(a) + db
  {
    DottedHead(a, a, "");
    DottedHead(a + b, a, b);
    assert a[k..] + "" == a[k..];
    ghost var c := if PairAt(a, 0) then "." else [a[0]];
    assert Dotted(a) == c + da;
    assert Dotted(a + b) == c + Dotted(a[k..] + b);
    Associate(c, da, db);
  }

  lemma Associate(x: string, y: string, z: string)
    ensures x + (y + z) == (x + y) + z
  {
  }

  /** One step of dotting at the front of a, whatever follows. */
  lemma DottedHead(s: string, a: string, b: string)
    requires a != "" && s == a + b
    requires |a| == 1 && b != "" ==> a[0] != ':' || b[0] != ':'
    ensures Dotted(s) == (if PairAt(a, 0) then "." + Dotted(a[2..] + b) else [a[0]] + Dotted(a[1..] + b))
  {
    assert PairAt(s, 0) <==> PairAt(a, 0);
    if PairAt(a, 0) {
      assert s[2..] == a[2..] + b;
    } else {
      assert s[1..] == a[1..] + b;
    }
  }

  lemma DottedPair(s: string)
    requires PairAt(s, 0)
    ensures Dotted(s) == "." + Dotted(s[2..])
  {
  }

  lemma PairInTail(s: string, k: nat)
    requires k <= |s| && HasPair(s[k..])
    ensures HasPair(s)
  {
    var i :| 0 <= i < |s[k..]| && PairAt(s[k..], i);
    assert PairAt(s, k + i);
  }

  lemma PairSomewhere(s: string)
    requires HasPair(s) && !PairAt(s, 0)
    ensures HasPair(s[1..])
  {
    var i :| 0 <= i < |s| && PairAt(s, i);
    assert PairAt(s[1..], i - 1);
  }

  /** Dotting shortens a string if and only if there is something to replace. */
  lemma {:induction false} DottedLength(s: string)
    ensures |Dotted(s)| <= |s|
    ensures !HasPair(s) ==> Dotted(s) == s
    ensures HasPair(s) ==> |Dotted(s)| < |s|
    decreases |s|
  {
    if s != "" {
      if PairAt(s, 0) {
        DottedLength(s[2..]);
      } else {
        DottedLength(s[1..]);
        if HasPair(s) {
          PairSomewhere(s);
        } else if HasPair(s[1..]) {
          PairInTail(s, 1);
        }
      }
    }
  }

  /** No "::" is left, nor made from what surrounds a replaced one. */
  lemma {:induction false} DottedHasNoPair(s: string)
    ensures !HasPair(Dotted(s))
    ensures Dotted(s) != "" && Dotted(s)[0] == ':' ==> s[0] == ':' && !PairAt(s, 0)
    decreases |s|
  {
    if s != "" {
      var d := Dotted(s);
      var rest := if PairAt(s, 0) then s[2..] else s[1..];
      DottedHasNoPair(rest);
      if HasPair(d) {
        var i :| 0 <= i < |d| && PairAt(d, i);
        if i > 0 {
          assert PairAt(Dotted(rest), i - 1);
        }
      }
    }
  }

  // Agreement.

  lemma {:induction false} WithoutConcat(a: string, b: string)
    ensures WithoutAmpersands(a + b) == WithoutAmpersands(a) + WithoutAmpersands(b)
  {
    if a == "" {
      assert a + b == b;
    } else {
      var c := if a[0] == '&' then "" else [a[0]];
      WithoutConcat(a[1..], b);
      WithoutHead(a, b);
      WithoutHead(a, "");
      assert a + "" == a && a[1..] + "" == a[1..];
      Associate(c, WithoutAmpersands(a[1..]), WithoutAmpersands(b));
    }
  }

  lemma WithoutHead(a: string, b: string)
    requires a != ""
    ensures WithoutAmpersands(a + b) == (if a[0] == '&' then "" else [a[0]]) + WithoutAmpersands(a[1..] + b)
  {
    assert (a + b)[1..] == a[1..] + b;
  }

  lemma {:induction false} DottedKeepsAmpersands(s: string)
    ensures '&' in Dotted(s) <==> '&' in s
    decreases |s|
  {
    if s != "" {
      if PairAt(s, 0) {
        DottedKeepsAmpersands(s[2..]);
        assert s == "::" + s[2..];
      } else {
        DottedKeepsAmpersands(s[1..]);
        assert s == [s[0]] + s[1..];
      }
    }
  }

  /** What follows "&gccbrig." in the name `findSymbol` searches for, given "&m::&s". */
  function FoundTail(m: string, s: string): string {
    WithoutAmpersands(Dotted(m + "::")) + WithoutAmpersands(Dotted(s))
  }

  lemma SearchedTail(m: string, s: string)
    ensures var name := "&" + m + "::&" + s;
            SearchedName(name) == "&" + PREFIX + FoundTail(m, s)
  {
    var name, u := "&" + m + "::&" + s, m + "::";
    assert name == "&" + (u + ("&" + s));
    assert PairAt(name, 1 + |m|);
    DottedConcat("&", u + ("&" + s));
    DottedConcat(u, "&" + s);
    DottedConcat("&", s);
    assert Dotted("&") == "&" by {
      assert "&"[1..] == "";
    }
    var tail := Dotted(u) + ("&" + Dotted(s));
    assert Dotted(name) == "&" + tail;
    assert Dotted(name)[1..] == tail;
    WithoutConcat(Dotted(u), "&" + Dotted(s));
    assert ("&" + Dotted(s))[1..] == Dotted(s);
  }

  lemma ExecutableTail(m: string, s: string)
    ensures ExecutableName("&" + m, "&" + s) == "&" + PREFIX + (m + "." + s)
  {
    assert ("&" + m)[1..] == m && ("&" + s)[1..] == s;
    var inner := InsertAtOne("&" + s, m + ".");
    assert inner == "&" + (m + "." + s);
    assert inner[1..] == m + "." + s;
  }

  /** Dotting and removing ampersands work character by character: with the two laws of concatenation this
      says what they do to any string. */
  lemma SingleCharacters(c: char)
    ensures Dotted("::") == "." && Dotted([c]) == [c] && Dotted("") == ""
    ensures WithoutAmpersands([c]) == if c == '&' then "" else [c]
  {
    assert "::"[2..] == "" && [c][1..] == "";
  }

  /** The name `findSymbol` searches for, if the given name has no "::": that name, less the ampersands after
      the first character. In particular no prefix. */
  lemma SearchedWithoutModule(name: string)
    requires name != "" && !HasPair(name)
    ensures SearchedName(name) == [name[0]] + WithoutAmpersands(name[1..])
  {
    DottedLength(name);
  }

  /** The name `findSymbol` searches for, if the given name has a "::": the first one becomes a dot, and the
      prefix goes behind the first character. */
  lemma {:induction false} SearchedWithModule(c: char, a: string, b: string)
    requires !HasPair([c] + a) && ([c] + a)[|a|] != ':'
    ensures SearchedName([c] + (a + ("::" + b))) ==
            [c] + "gccbrig." + (WithoutAmpersands(a) + ("." + WithoutAmpersands(Dotted(b))))
  {
    var name := [c] + (a + ("::" + b));
    assert PairAt(name, 1 + |a|);
    DottedModule(c, a, b);
    WithoutConcat(a, "." + Dotted(b));
    WithoutDot(Dotted(b));
    Searched(name, c, a + ("." + Dotted(b)));
  }

  lemma Searched(name: string, c: char, rest: string)
    requires name != "" && HasPair(name) && Dotted(name) == [c] + rest
    ensures SearchedName(name) == [c] + "gccbrig." + WithoutAmpersands(rest)
  {
    assert ([c] + rest)[1..] == rest;
    var plain := [c] + WithoutAmpersands(rest);
    assert plain[1..] == WithoutAmpersands(rest);
  }

  lemma WithoutDot(s: string)
    ensures WithoutAmpersands("." + s) == "." + WithoutAmpersands(s)
  {
    assert ("." + s)[1..] == s;
  }

  lemma DottedModule(c: char, a: string, b: string)
    requires !HasPair([c] + a) && ([c] + a)[|a|] != ':'
    ensures Dotted([c] + (a + ("::" + b))) == [c] + (a + ("." + Dotted(b)))
  {
    var head := [c] + a;
    DottedConcat(head, "::" + b);
    DottedLength(head);
    DottedPair("::" + b);
    assert ("::" + b)[2..] == b;
    Associate([c], a, "::" + b);
    Associate([c], a, "." + Dotted(b));
  }

  /** The name `hsa_executable_get_symbol` searches for, whether or not the symbol's name has its '&'. The
      module's first character is dropped, whatever it is. */
  lemma ExecutableNameMeaning(moduleName: string, symbolName: string)
    requires symbolName != ""
    ensures var bare := if symbolName[0] == '&' then symbolName[1..] else symbolName;
            && (moduleName == "" ==> ExecutableName(moduleName, symbolName) == "&" + bare)
            && (moduleName != "" ==>
                  ExecutableName(moduleName, symbolName) == "&gccbrig." + (moduleName[1..] + "." + bare))
  {
    var bare := if symbolName[0] == '&' then symbolName[1..] else symbolName;
    assert symbolName[0] == '&' ==> symbolName == "&" + bare;
    if moduleName != "" {
      assert ("&" + moduleName[1..])[1..] == moduleName[1..] && ("&" + bare)[1..] == bare;
      ExecutableTail(moduleName[1..], bare);
    }
  }

  /** When both manglers give the same name: neither part contains '&' or "::", and the module's name
      does not end in a colon. */
  ghost predicate Plain(m: string, s: string) {
    '&' !in m && '&' !in s && !HasPair(m) && !HasPair(s) && (m == "" || m[|m| - 1] != ':')
  }

  lemma PlainAgrees(m: string, s: string)
    requires Plain(m, s)
    ensures FoundTail(m, s) == m + "." + s
  {
    DottedConcat(m, "::");
    DottedLength(m);
    DottedLength(s);
    assert Dotted("::") == "." by {
      assert "::"[2..] == "";
    }
    assert '&' !in m + ".";
  }

  lemma AgreeingIsPlain(m: string, s: string)
    requires FoundTail(m, s) == m + "." + s
    ensures Plain(m, s)
  {
    var left, right := Dotted(m + "::"), Dotted(s);
    var whole := m + "." + s;
    assert '&' !in m && '&' !in s by {
      assert '&' !in whole;
      assert forall c :: c in m ==> c in whole;
      assert forall c :: c in s ==> c in whole;
    }
    DottedKeepsAmpersands(m + "::");
    DottedKeepsAmpersands(s);
    assert left + right == whole;
    assert HasPair(m + "::") by {
      assert PairAt(m + "::", |m|);
    }
    DottedLength(m + "::");
    DottedLength(s);
    assert |left| == |m| + 1 && |right| == |s|;
    assert left == whole[..|m| + 1] == m + ".";
    DottedHasNoPair(m + "::");
    assert !HasPair(m) by {
      if HasPair(m) {
        var i :| 0 <= i < |m| && PairAt(m, i);
        assert PairAt(left, i);
      }
    }
    if m != "" && m[|m| - 1] == ':' {
      ColonAtTheEnd(m);
    }
  }

  lemma ColonAtTheEnd(m: string)
    requires m != "" && m[|m| - 1] == ':' && !HasPair(m)
    ensures Dotted(m + "::") != m + "."
  {
    var n := m[..|m| - 1];
    assert m + "::" == n + ":::";
    if |n| > 0 && n[|n| - 1] == ':' {
      assert PairAt(m, |m| - 2);
    }
    assert Dotted(":::") == ".:" by {
      assert ":::"[2..] == ":" && ":"[1..] == "";
    }
    NoColonBefore(n);
    assert Dotted(n + ":::")[|Dotted(n)| + 1] == ':';
    assert |Dotted(n + ":::")| == |Dotted(n)| + 2;
    assert (m + ".")[|m|] == '.';
  }

  lemma NoColonBefore(n: string)
    requires n == "" || n[|n| - 1] != ':'
    ensures Dotted(n + ":::") == Dotted(n) + Dotted(":::")
  {
    DottedConcat(n, ":::");
  }

  /** The manglers agree, exactly. `findSymbol` on "&m::&s" and `hsa_executable_get_symbol` on module
      "&m" and symbol "&s" search for the same name if and only if m and s are plain, and then that
      name is "&gccbrig.m.s". */
  lemma {:induction false} ManglersAgreeExactly(m: string, s: string)
    ensures SearchedName("&" + m + "::&" + s) == ExecutableName("&" + m, "&" + s) <==> Plain(m, s)
    ensures Plain(m, s) ==> SearchedName("&" + m + "::&" + s) == "&gccbrig." + m + "." + s
  {
    SearchedTail(m, s);
    ExecutableTail(m, s);
    SameTail("&" + PREFIX, FoundTail(m, s), m + "." + s);
    TailsAgree(m, s);
    PlainName(m, s);
  }

  lemma PlainName(m: string, s: string)
    ensures "&" + PREFIX + (m + "." + s) == "&gccbrig." + m + "." + s
  {
    assert "&" + PREFIX == "&gccbrig.";
  }

  lemma TailsAgree(m: string, s: string)
    ensures FoundTail(m, s) == m + "." + s <==> Plain(m, s)
  {
    if Plain(m, s) {
      PlainAgrees(m, s);
    } else if FoundTail(m, s) == m + "." + s {
      AgreeingIsPlain(m, s);
    }
  }

  lemma SameTail(head: string, x: string, y: string)
    ensures head + x == head + y <==> x == y
  {
    assert (head + x)[|head|..] == x && (head + y)[|head|..] == y;
  }

  // The code.

  /** `std::string::find("::", from)`; the length stands for npos. */
  method FindPair(s: string, from: nat) returns (p: nat)
    requires from <= |s|
    ensures from <= p <= |s|
    ensures p < |s| ==> PairAt(s, p)
    ensures forall i :: from <= i < p ==> !PairAt(s, i)
  {
    p := from;
    while p < |s| && !PairAt(s, p)
      invariant from <= p <= |s|
      invariant forall i :: from <= i < p ==> !PairAt(s, i)
    {
      p := p + 1;
    }
  }

  lemma {:induction false} DottedSkips(s: string, k: nat)
    requires k <= |s| && forall i :: 0 <= i < k ==> !PairAt(s, i)
    ensures Dotted(s) == s[..k] + Dotted(s[k..])
    decreases k
  {
    if k == 0 {
      assert s[..0] == "" && s[0..] == s;
    } else {
      forall i | 0 <= i < k - 1 ensures !PairAt(s[1..], i) {
        assert !PairAt(s, i + 1);
      }
      DottedSkips(s[1..], k - 1);
      assert s[1..][k - 1..] == s[k..];
      assert s[..k] == [s[0]] + s[1..][..k - 1];
    }
  }

  lemma DottedSkipsTo(s: string, from: nat, to: nat)
    requires from <= to <= |s| && forall i :: from <= i < to ==> !PairAt(s, i)
    ensures s[..from] + Dotted(s[from..]) == s[..to] + Dotted(s[to..])
  {
    forall i | 0 <= i < to - from ensures !PairAt(s[from..], i) {
      assert !PairAt(s, from + i);
    }
    DottedSkips(s[from..], to - from);
    CutTwice(s, from, to);
    Associate(s[..from], s[from..][..to - from], Dotted(s[to..]));
  }

  lemma CutTwice(s: string, from: nat, to: nat)
    requires from <= to <= |s|
    ensures s[from..][to - from..] == s[to..]
    ensures s[..from] + s[from..][..to - from] == s[..to]
  {
  }

  lemma DottedReplace(s: string, pos: nat)
    requires PairAt(s, pos)
    ensures var replaced := s[..pos] + "." + s[pos + 2..];
            s[..pos] + Dotted(s[pos..]) == replaced[..pos + 1] + Dotted(replaced[pos + 1..])
  {
    var replaced := s[..pos] + "." + s[pos + 2..];
    DottedPair(s[pos..]);
    assert s[pos..][2..] == s[pos + 2..] == replaced[pos + 1..];
    assert replaced[..pos + 1] == s[..pos] + ".";
  }

  /** The replacement loop of `findSymbol`. */
  method ReplacePairs(name: string) returns (actual: string)
    ensures actual == Dotted(name) && !HasPair(actual)
  {
    actual := name;
    var pos := FindPair(actual, 0);
    DottedSkips(actual, pos);
    while pos < |actual|
      invariant pos <= |actual| && (pos < |actual| ==> PairAt(actual, pos))
      invariant Dotted(name) == actual[..pos] + Dotted(actual[pos..])
      decreases |actual| - pos
    {
      DottedReplace(actual, pos);
      actual := actual[..pos] + "." + actual[pos + 2..];
      pos := pos + 1;
      var next := FindPair(actual, pos);
      DottedSkipsTo(actual, pos, next);
      pos := next;
    }
    assert actual[..pos] == actual && actual[pos..] == "";
    DottedHasNoPair(name);
  }

  /** `FinalizedProgram::findSymbol`: position of the first symbol with the rewritten name. */
  method FindSymbol(symbols: seq<string>, name: string) returns (found: nat)
    requires name != ""
    ensures found <= |symbols|
    ensures found < |symbols| ==> symbols[found] == SearchedName(name)
    ensures forall i :: 0 <= i < found ==> symbols[i] != SearchedName(name)
  {
    var p := FindPair(name, 0);
    var hasModule := p < |name|;
    var actual := ReplacePairs(name);
    assert actual != "";
    actual := [actual[0]] + WithoutAmpersands(actual[1..]);
    if hasModule {
      assert HasPair(name);
      actual := InsertAtOne(actual, PREFIX);
    }
    assert actual == SearchedName(name);
    found := 0;
    while found < |symbols| && symbols[found] != actual
      invariant 0 <= found <= |symbols|
      invariant forall i :: 0 <= i < found ==> symbols[i] != actual
    {
      found := found + 1;
    }
  }

  datatype Lookup = InvalidSymbolName | Symbol(name: string)

  /** `hsa_executable_get_symbol`: the name edited in place by successive inserts, then looked up. */
  method GetSymbol(symbolsByName: set<string>, moduleName: string, symbolName: string) returns (r: Lookup)
    ensures r.InvalidSymbolName? <==> symbolName == "" || ExecutableName(moduleName, symbolName) !in symbolsByName
    ensures r.Symbol? ==> r.name == ExecutableName(moduleName, symbolName)
  {
    if symbolName == "" {
      return InvalidSymbolName;
    }
    var name := symbolName;
    if name[0] != '&' {
      name := "&" + name;
    }
    if |moduleName| > 0 {
      name := InsertAtOne(name, moduleName[1..] + ".");
      name := InsertAtOne(name, PREFIX);
    }
    if name !in symbolsByName {
      return InvalidSymbolName;
    }
    r := Symbol(name);
  }
}

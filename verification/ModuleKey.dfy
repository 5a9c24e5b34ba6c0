/** The key that identifies a module specification (internal/timecraft/module.go). */
module ModuleKey {

  /** The fields that the key covers, and one value for all those it does not. */
  datatype ModuleSpec = ModuleSpec(path: string, args: seq<string>, env: seq<string>, other: nat)

  // ----- decimal numbers

  function Digit(d: nat): char
    requires d < 10
  {
    '0' + d as char
  }

  function Decimal(n: nat): (s: string)
    ensures s != "" && forall i :: 0 <= i < |s| ==> '0' <= s[i] <= '9'
  {
    if n < 10 then [Digit(n)] else Decimal(n / 10) + [Digit(n % 10)]
  }

  function Value(s: string): nat
    requires forall i :: 0 <= i < |s| ==> '0' <= s[i] <= '9'
  {
    if s == "" then 0 else 10 * Value(s[..|s| - 1]) + (s[|s| - 1] - '0') as nat
  }

  lemma {:induction false} ValueOfDecimal(n: nat)
    ensures Value(Decimal(n)) == n
  {
    if n >= 10 {
      ValueOfDecimal(n / 10);
      assert Decimal(n)[..|Decimal(n)| - 1] == Decimal(n / 10);
    }
  }

  // ----- the key

  function Field(s: string): string { ":" + Decimal(|s|) + ":" + s }

  function Fields(ss: seq<string>): string {
    if ss == [] then "" else Fields(ss[..|ss| - 1]) + Field(ss[|ss| - 1])
  }

  function KeyOf(m: ModuleSpec): string {
    Field(m.path) + (":" + Decimal(|m.args|)) + Fields(m.args) + (":" + Decimal(|m.env|)) + Fields(m.env)
  }

  method AppendFields(buf: string, ss: seq<string>) returns (b: string)
    ensures b == buf + Fields(ss)
  {
    b := buf;
    for i := 0 to |ss|
      invariant b == buf + Fields(ss[..i])
    {
      assert ss[..i + 1][..i] == ss[..i];
      Assoc(buf, Fields(ss[..i]), Field(ss[i]));
      b := b + Field(ss[i]);
    }
    assert ss[..|ss|] == ss;
  }

  method Key(m: ModuleSpec) returns (b: string)
    ensures b == KeyOf(m)
  {
    b := Field(m.path);
    b := b + (":" + Decimal(|m.args|));
    b := AppendFields(b, m.args);
    b := b + (":" + Decimal(|m.env|));
    b := AppendFields(b, m.env);
  }

  lemma {:induction false} Assoc(a: string, b: string, c: string)
    ensures a + b + c == a + (b + c)
  {
  }

  // ----- injectivity

  predicate Delimited(s: string) { s == "" || s[0] == ':' }

  lemma {:induction false} NumberPrefix(n: nat, m: nat, a: string, b: string)
    requires Decimal(n) + a == Decimal(m) + b && Delimited(a) && Delimited(b)
    ensures n == m && a == b
  {
    var x, y := Decimal(n), Decimal(m);
    var s := x + a;
    assert forall i :: 0 <= i < |x| ==> s[i] == x[i];
    assert forall i :: 0 <= i < |y| ==> s[i] == y[i];
    assert |x| < |s| ==> s[|x|] == a[0];
    assert |y| < |s| ==> s[|y|] == b[0];
    assert x == s[..|x|] == y && a == s[|x|..] == b;
    ValueOfDecimal(n);
    ValueOfDecimal(m);
  }

  lemma {:induction false} Cancel(p: string, a: string, b: string)
    requires p + a == p + b
    ensures a == b
  {
    assert a == (p + a)[|p|..] == (p + b)[|p|..] == b;
  }

  lemma {:induction false} CountPrefix(n: nat, m: nat, a: string, b: string)
    requires ":" + Decimal(n) + a == ":" + Decimal(m) + b && Delimited(a) && Delimited(b)
    ensures n == m && a == b
  {
    Assoc(":", Decimal(n), a);
    Assoc(":", Decimal(m), b);
    Cancel(":", Decimal(n) + a, Decimal(m) + b);
    NumberPrefix(n, m, a, b);
  }

  lemma {:induction false} FieldAssoc(s: string, a: string)
    ensures Field(s) + a == ":" + Decimal(|s|) + (":" + (s + a))
  {
    Assoc(":" + Decimal(|s|), ":", s);
    Assoc(":" + Decimal(|s|), ":" + s, a);
    Assoc(":", s, a);
  }

  lemma {:induction false} FieldPrefix(s: string, t: string, a: string, b: string)
    requires Field(s) + a == Field(t) + b
    ensures s == t && a == b
  {
    FieldAssoc(s, a);
    FieldAssoc(t, b);
    CountPrefix(|s|, |t|, ":" + (s + a), ":" + (t + b));
    Cancel(":", s + a, t + b);
    assert s == (s + a)[..|s|] == (t + b)[..|t|] == t;
    Cancel(s, a, b);
  }

  function FieldsFront(ss: seq<string>): string {
    if ss == [] then "" else Field(ss[0]) + FieldsFront(ss[1..])
  }

  lemma {:induction false} FieldsFromFront(ss: seq<string>)
    ensures Fields(ss) == FieldsFront(ss)
  {
    if |ss| == 1 {
      assert ss[..0] == [] && ss[1..] == [];
    } else if |ss| > 1 {
      var mid := ss[1..|ss| - 1];
      assert ss[..|ss| - 1][1..] == mid && ss[1..][..|ss| - 2] == mid;
      FieldsFromFront(ss[..|ss| - 1]);
      FieldsFromFront(ss[1..]);
      FieldsFromFront(mid);
      assert Field(ss[0]) + FieldsFront(mid) + Field(ss[|ss| - 1]) == Field(ss[0]) + (FieldsFront(mid) + Field(ss[|ss| - 1]));
    }
  }

  lemma {:induction false} FieldsPrefix(ss: seq<string>, ts: seq<string>, a: string, b: string)
    requires |ss| == |ts| && FieldsFront(ss) + a == FieldsFront(ts) + b
    ensures ss == ts && a == b
  {
    if ss != [] {
      assert FieldsFront(ss) + a == Field(ss[0]) + (FieldsFront(ss[1..]) + a);
      assert FieldsFront(ts) + b == Field(ts[0]) + (FieldsFront(ts[1..]) + b);
      FieldPrefix(ss[0], ts[0], FieldsFront(ss[1..]) + a, FieldsFront(ts[1..]) + b);
      FieldsPrefix(ss[1..], ts[1..], a, b);
      assert ss == [ss[0]] + ss[1..] && ts == [ts[0]] + ts[1..];
    } else {
      assert a == "" + a == "" + b == b;
    }
  }

  function Tail(m: ModuleSpec): string { ":" + Decimal(|m.env|) + FieldsFront(m.env) }

  lemma {:induction false} Regroup(p: string, q: string, r: string, s: string, t: string)
    ensures p + q + r + s + t == p + (q + (r + (s + t)))
  {
    Assoc(p + q + r, s, t);
    Assoc(p + q, r, s + t);
    Assoc(p, q, r + (s + t));
  }

  lemma {:induction false} KeySplits(m: ModuleSpec)
    ensures KeyOf(m) == Field(m.path) + (":" + Decimal(|m.args|) + (FieldsFront(m.args) + Tail(m)))
    ensures Delimited(FieldsFront(m.args) + Tail(m)) && Delimited(FieldsFront(m.env))
  {
    FieldsFromFront(m.args);
    FieldsFromFront(m.env);
    Regroup(Field(m.path), ":" + Decimal(|m.args|), FieldsFront(m.args), ":" + Decimal(|m.env|), FieldsFront(m.env));
  }

  /** Keys are equal exactly when path, arguments and environment are, whatever the strings
      hold. */
  lemma {:induction false} KeyInjective(m: ModuleSpec, n: ModuleSpec)
    ensures KeyOf(m) == KeyOf(n) <==> m.path == n.path && m.args == n.args && m.env == n.env
  {
    if KeyOf(m) == KeyOf(n) { KeyDetermines(m, n); }
  }

  /** So specifications with equal keys are the same exactly when they agree on what the key
      leaves out. */
  lemma {:induction false} KeyIdentifiesExactly(m: ModuleSpec, n: ModuleSpec)
    requires KeyOf(m) == KeyOf(n)
    ensures m == n <==> m.other == n.other
  {
    KeyInjective(m, n);
  }

  /** Every specification shares its key with another one. */
  lemma {:induction false} KeyIsShared(m: ModuleSpec) returns (n: ModuleSpec)
    ensures n != m && KeyOf(n) == KeyOf(m)
  {
    n := m.(other := m.other + 1);
  }

  lemma {:induction false} KeyDetermines(m: ModuleSpec, n: ModuleSpec)
    requires KeyOf(m) == KeyOf(n)
    ensures m.path == n.path && m.args == n.args && m.env == n.env
  {
    KeySplits(m);
    KeySplits(n);
    FieldPrefix(m.path, n.path, ":" + Decimal(|m.args|) + (FieldsFront(m.args) + Tail(m)),
                                ":" + Decimal(|n.args|) + (FieldsFront(n.args) + Tail(n)));
    CountPrefix(|m.args|, |n.args|, FieldsFront(m.args) + Tail(m), FieldsFront(n.args) + Tail(n));
    FieldsPrefix(m.args, n.args, Tail(m), Tail(n));
    CountPrefix(|m.env|, |n.env|, FieldsFront(m.env), FieldsFront(n.env));
    assert FieldsFront(m.env) + "" == FieldsFront(n.env) + "";
    FieldsPrefix(m.env, n.env, "", "");
  }
}

/** Delimited text: what `str.split`, `"_".join`, `str.startswith` and `str(int)` mean for the
    state keys and for the image identifications, which share one delimiter. */
module Text {

  datatype Option<+T> = None | Some(value: T)

  const DELIMITER := '_'

  /** A key element the gateway accepts: it does not contain the delimiter. */
  predicate Free(s: string) {
    DELIMITER !in s
  }

  predicate AllFree(parts: seq<string>) {
    forall i | 0 <= i < |parts| :: Free(parts[i])
  }

  predicate StartsWith(s: string, prefix: string) {
    prefix <= s
  }

  function Join(parts: seq<string>): string
    requires parts != []
  {
    if |parts| == 1 then parts[0] else parts[0] + [DELIMITER] + Join(parts[1..])
  }

  function Split(s: string): (parts: seq<string>)
    ensures parts != [] && AllFree(parts)
  {
    if s == "" then [""]
    else if s[0] == DELIMITER then [""] + Split(s[1..])
    else var rest := Split(s[1..]); [[s[0]] + rest[0]] + rest[1..]
  }

  /** Text without a delimiter is one part; text up to the first delimiter is the first part. */
  lemma {:induction false} SplitFirst(a: string, s: string)
    requires Free(a)
    ensures Split(a) == [a]
    ensures Split(a + [DELIMITER] + s) == [a] + Split(s)
  {
    if a == "" {
      assert (a + [DELIMITER] + s)[1..] == s;
    } else {
      SplitFirst(a[1..], s);
      assert (a + [DELIMITER] + s)[1..] == a[1..] + [DELIMITER] + s;
      assert [a[0]] + a[1..] == a;
    }
  }

  lemma {:induction false} SplitJoin(parts: seq<string>)
    requires parts != [] && AllFree(parts)
    ensures Split(Join(parts)) == parts
  {
    if |parts| == 1 {
      SplitFirst(parts[0], "");
    } else {
      SplitFirst(parts[0], Join(parts[1..]));
      SplitJoin(parts[1..]);
    }
  }

  lemma {:induction false} JoinSplit(s: string)
    ensures Join(Split(s)) == s
  {
    if s != "" {
      JoinSplit(s[1..]);
      var rest := Split(s[1..]);
      if s[0] == DELIMITER {
        assert Split(s)[1..] == rest;
      } else {
        assert Split(s)[1..] == rest[1..];
        assert [s[0]] + s[1..] == s;
      }
    }
  }

  lemma JoinAppend(parts: seq<string>, last: string)
    requires parts != []
    ensures Join(parts + [last]) == Join(parts) + [DELIMITER] + last
  {
    if |parts| == 1 {
      assert (parts + [last])[1..] == [last];
    } else {
      JoinAppend(parts[1..], last);
      assert (parts + [last])[1..] == parts[1..] + [last];
    }
  }

  /** A prefix made of whole parts `ps` and a trailing part `d` selects exactly the texts whose parts
      begin with `ps` and whose next part begins with `d`; `d == ""` is the delimiter-terminated case. */
  lemma {:induction false} PrefixByParts(ps: seq<string>, d: string, s: string)
    requires AllFree(ps) && Free(d)
    ensures StartsWith(s, Join(ps + [d])) <==>
            |Split(s)| > |ps| && Split(s)[..|ps|] == ps && d <= Split(s)[|ps|]
  {
    JoinSplit(s);
    var parts := Split(s);
    if ps == [] {
      assert ps + [d] == [d];
      PrefixOfFirst(d, s);
    } else {
      var a := ps[0];
      assert (ps + [d])[1..] == ps[1..] + [d];
      var tail := Join(ps[1..] + [d]);
      assert Join(ps + [d]) == a + [DELIMITER] + tail;
      if |parts| == 1 {
        assert Free(s);
        assert Join(ps + [d])[|a|] == DELIMITER;
        if |a| < |s| { assert s[|a|] in s; }
      } else {
        var rest := Join(parts[1..]);
        assert s == parts[0] + [DELIMITER] + rest;
        FirstPartsAgree(a, tail, parts[0], rest);
        SplitJoin(parts[1..]);
        PrefixByParts(ps[1..], d, rest);
        if |parts| > |ps| && parts[..|ps|] == ps {
          assert parts[1..][..|ps| - 1] == parts[..|ps|][1..] == ps[1..];
        }
        if |parts| > |ps| && parts[0] == a && parts[1..][..|ps| - 1] == ps[1..] {
          assert parts[..|ps|] == [a] + ps[1..];
        }
      }
    }
  }

  lemma PrefixOfFirst(d: string, s: string)
    requires Free(d)
    ensures d <= s <==> d <= Split(s)[0]
  {
    if d != "" && s != "" && d[0] == s[0] {
      PrefixOfFirst(d[1..], s[1..]);
      var f := Split(s)[0];
      assert f[1..] == Split(s[1..])[0];
      assert d <= s <==> d[1..] <= s[1..];
    }
  }

  lemma FirstPartsAgree(a: string, x: string, b: string, y: string)
    requires Free(a) && Free(b)
    ensures a + [DELIMITER] + x <= b + [DELIMITER] + y <==> a == b && x <= y
  {
    var l, r := a + [DELIMITER] + x, b + [DELIMITER] + y;
    if l <= r {
      if |b| <= |a| { assert l[|b|] == r[|b|]; }
      assert l[|a|] == r[|a|];
      assert l[..|a|] == a && r[..|a|] == b;
      assert forall i | 0 <= i < |x| :: x[i] == l[|a| + 1 + i];
      assert forall i | 0 <= i < |y| :: y[i] == r[|a| + 1 + i];
    }
  }

  // ----- decimal numbers -----

  function Digit(d: nat): char
    requires d < 10
  {
    ('0' as int + d) as char
  }

  predicate IsDigit(c: char) {
    '0' <= c <= '9'
  }

  /** `str(n)` */
  function Decimal(n: nat): (s: string)
    ensures s != "" && Free(s)
  {
    if n < 10 then [Digit(n)] else Decimal(n / 10) + [Digit(n % 10)]
  }

  /** `int(s)` on plain decimal digits; None stands for ValueError. */
  function ParseDecimal(s: string): Option<nat> {
    if s == "" || !IsDigit(s[|s| - 1]) then None
    else
      var d := s[|s| - 1] as int - '0' as int;
      if |s| == 1 then Some(d)
      else match ParseDecimal(s[..|s| - 1])
           case None => None
           case Some(n) => Some(10 * n + d)
  }

  lemma {:induction false} ParseOfDecimal(n: nat)
    ensures ParseDecimal(Decimal(n)) == Some(n)
  {
    if n >= 10 {
      ParseOfDecimal(n / 10);
      var s := Decimal(n);
      assert s[..|s| - 1] == Decimal(n / 10);
    }
  }

  lemma DecimalInjective(a: nat, b: nat)
    requires Decimal(a) == Decimal(b)
    ensures a == b
  {
    ParseOfDecimal(a);
    ParseOfDecimal(b);
  }

  /** `b` is `a` with zero or more decimal digits written after it. */
  predicate ExtendsDecimal(a: nat, b: nat) {
    a == b || (b >= 10 && ExtendsDecimal(a, b / 10))
  }

  lemma {:induction false} DecimalPrefix(a: nat, b: nat)
    ensures Decimal(a) <= Decimal(b) <==> ExtendsDecimal(a, b)
  {
    if a != b {
      var s, t := Decimal(a), Decimal(b);
      if s == t { DecimalInjective(a, b); }
      if b >= 10 {
        DecimalPrefix(a, b / 10);
        assert t[..|t| - 1] == Decimal(b / 10);
        if s <= t {
          assert |s| < |t|;
          assert s == t[..|s|] == t[..|t| - 1][..|s|];
        }
      }
    }
  }

  /** Numbers are parsed from exactly the texts of one or more digits, and written without leading zeros. */
  lemma {:induction false} ParsesDigits(s: string)
    ensures ParseDecimal(s).Some? <==> s != "" && forall i | 0 <= i < |s| :: '0' <= s[i] <= '9'
  {
    if |s| > 1 {
      var init := s[..|s| - 1];
      ParsesDigits(init);
      if ParseDecimal(s).Some? {
        forall i | 0 <= i < |s| ensures '0' <= s[i] <= '9' { if i < |s| - 1 { assert init[i] == s[i]; } }
      }
    }
  }

  lemma DecimalExamples()
    ensures Decimal(0) == "0" && Decimal(9) == "9" && Decimal(10) == "10" && Decimal(4420) == "4420"
  {
    assert Decimal(4) == "4" && Decimal(44) == "44" && Decimal(442) == "442";
  }
}

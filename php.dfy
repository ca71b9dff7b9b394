/**
 * The few PHP built-ins the importer's decisions rest on, stated on Dafny strings:
 * truthiness, trim(), ucfirst(), string interpolation of null, and the loose
 * comparison `drop` uses.
 */
module Php {

  datatype Option<+T> = None | Some(value: T)

  /** PHP reads a string as false exactly when it is "" or "0". */
  predicate Truthy(s: string)
  {
    s != "" && s != "0"
  }

  /** Truthiness of a string that may be null; null is false. */
  predicate TruthyOpt(o: Option<string>)
  {
    o.Some? && Truthy(o.value)
  }

  /** A possibly-null string as it reads inside "...{$x}...": null reads as "". */
  function Text(o: Option<string>): string
  {
    if o.Some? then o.value else ""
  }

  predicate StartsWith(s: string, prefix: string)
  {
    |prefix| <= |s| && s[..|prefix|] == prefix
  }

  /** `$s[0] != '-'`: true for "" too, since an out-of-range offset reads as "". */
  predicate NotDashFirst(s: string)
  {
    s == "" || s[0] != '-'
  }

  /** The characters trim() strips by default: space, tab, LF, CR, NUL and vertical tab. */
  predicate IsBlank(c: char)
  {
    c == ' ' || c == '\t' || c == '\n' || c == '\r' || c == '\0' || c == 11 as char
  }

  /** rtrim(): drops blanks from the end. */
  function TrimEnd(s: string): string
  {
    if s == "" || !IsBlank(s[|s| - 1]) then s else TrimEnd(s[..|s| - 1])
  }

  /** ltrim(): drops blanks from the start. */
  function TrimStart(s: string): string
  {
    if s == "" || !IsBlank(s[0]) then s else TrimStart(s[1..])
  }

  /** rtrim() keeps the longest prefix that does not end in a blank, and drops only blanks. */
  lemma {:induction false} TrimEndShape(s: string)
    ensures TrimEnd(s) <= s
    ensures TrimEnd(s) == "" || !IsBlank(TrimEnd(s)[|TrimEnd(s)| - 1])
    ensures forall i :: |TrimEnd(s)| <= i < |s| ==> IsBlank(s[i])
  {
    if s != "" && IsBlank(s[|s| - 1]) {
      TrimEndShape(s[..|s| - 1]);
    }
  }

  /** ltrim() keeps the longest suffix that does not start with a blank, and drops only blanks. */
  lemma {:induction false} TrimStartShape(s: string)
    ensures |TrimStart(s)| <= |s| && TrimStart(s) == s[|s| - |TrimStart(s)|..]
    ensures TrimStart(s) == "" || !IsBlank(TrimStart(s)[0])
    ensures forall i :: 0 <= i < |s| - |TrimStart(s)| ==> IsBlank(s[i])
  {
    if s != "" && IsBlank(s[0]) {
      TrimStartShape(s[1..]);
      forall i | 0 <= i < |s| - |TrimStart(s)| ensures IsBlank(s[i]) {
        if i > 0 {
          assert s[i] == s[1..][i - 1];
        }
      }
    }
  }

  /** trim() with its default character list. */
  function Trim(s: string): string
  {
    TrimStart(TrimEnd(s))
  }

  /** strtoupper() of one byte in the "C" locale. */
  function Upper(c: char): char
  {
    if 'a' <= c <= 'z' then (c as int - 32) as char else c
  }

  /** ucfirst(): only the first character is upper-cased. */
  function Ucfirst(s: string): string
  {
    if s == "" then s else [Upper(s[0])] + s[1..]
  }

  /** Decimal rendering of a non-negative integer, as "{$n}" prints it. */
  function Decimal(n: nat): (r: string)
    ensures r != "" && forall i :: 0 <= i < |r| ==> '0' <= r[i] <= '9'
    ensures |r| == 1 <==> n < 10
    ensures r[0] == '0' ==> n == 0
  {
    if n < 10 then ["0123456789"[n]] else Decimal(n / 10) + ["0123456789"[n % 10]]
  }

  /** The number a string of decimal digits denotes, most significant digit first. */
  function DigitsValue(r: string): nat
  {
    if r == "" then 0
    else
      var d := r[|r| - 1] as int - '0' as int;
      DigitsValue(r[..|r| - 1]) * 10 + (if 0 <= d then d else 0)
  }

  lemma DigitChar(d: nat)
    requires d < 10
    ensures "0123456789"[d] as int - '0' as int == d
  {
    var digits := "0123456789";
    assert digits[0] == '0' && digits[1] == '1' && digits[2] == '2' && digits[3] == '3' && digits[4] == '4';
    assert digits[5] == '5' && digits[6] == '6' && digits[7] == '7' && digits[8] == '8' && digits[9] == '9';
  }

  /** The rendering reads back as the number itself. */
  lemma {:induction false} DecimalValue(n: nat)
    ensures DigitsValue(Decimal(n)) == n
  {
    var r := Decimal(n);
    if n < 10 {
      DigitChar(n);
      assert r[..|r| - 1] == "";
    } else {
      DecimalValue(n / 10);
      DigitChar(n % 10);
      assert r[..|r| - 1] == Decimal(n / 10);
    }
  }

  /** A PHP value that is null, a boolean, an integer or a string. */
  datatype Mixed = Null | Boolean(b: bool) | Int(i: int) | Str(s: string)

  /**
   * `$v == 'yes'` with PHP 7's loose comparison: null compares as "", a boolean
   * compares against the truthiness of "yes" (true), an integer against "yes"
   * read as a number (0), and two strings of which one is not numeric compare
   * as strings.
   */
  predicate LooselyYes(v: Mixed)
  {
    match v
    case Null => false
    case Boolean(b) => b
    case Int(i) => i == 0
    case Str(s) => s == "yes"
  }

  lemma UcfirstCapitalizes(s: string)
    ensures |Ucfirst(s)| == |s|
    ensures Ucfirst(s) == "" || !('a' <= Ucfirst(s)[0] <= 'z')
    ensures s != "" ==> Ucfirst(s)[0] == Upper(s[0]) && Ucfirst(s)[1..] == s[1..]
    ensures Ucfirst(Ucfirst(s)) == Ucfirst(s)
  {
  }

  /** ucfirst() reads as false exactly when its argument does, and then leaves it as it is. */
  lemma UcfirstFalsy(s: string)
    ensures !Truthy(Ucfirst(s)) <==> !Truthy(s)
    ensures !Truthy(s) ==> Ucfirst(s) == s
  {
    if s != "" {
      assert Ucfirst(s)[0] == Upper(s[0]);
      if |s| == 1 {
        assert Ucfirst(s) == [Upper(s[0])];
      }
    }
  }

  /** ucfirst() only looks at the first piece of a concatenation. */
  lemma UcfirstConcat(a: string, b: string)
    requires a != ""
    ensures Ucfirst(a + b) == Ucfirst(a) + b
  {
    assert (a + b)[1..] == a[1..] + b;
  }

  /** ucfirst(s) is t when t is s with its first letter upper-cased. */
  lemma UcfirstOf(s: string, t: string)
    requires s != "" && |t| == |s| && t[0] == Upper(s[0])
    requires forall i :: 1 <= i < |s| ==> t[i] == s[i]
    ensures Ucfirst(s) == t
  {
    assert t[1..] == s[1..];
  }

  /** Only blanks at the ends are cut: the result is a slice of `s` that neither starts nor ends in a blank. */
  lemma TrimIsInnerSlice(s: string)
    ensures exists i, j :: 0 <= i <= j <= |s| && Trim(s) == s[i..j]
                           && forall k :: 0 <= k < i || j <= k < |s| ==> IsBlank(s[k])
    ensures Trim(s) == "" || (!IsBlank(Trim(s)[0]) && !IsBlank(Trim(s)[|Trim(s)| - 1]))
  {
    var e := TrimEnd(s);
    var t := TrimStart(e);
    TrimEndShape(s);
    TrimStartShape(e);
    assert e == s[..|e|];
    assert t == s[|e| - |t|..|e|];
    forall k | 0 <= k < |e| - |t| || |e| <= k < |s| ensures IsBlank(s[k]) {
      if k < |e| - |t| {
        assert s[k] == e[k];
      }
    }
  }

  /** A string that ends in a non-blank keeps its last character under trim(). */
  lemma TrimKeepsLastNonBlank(s: string)
    requires s != "" && !IsBlank(s[|s| - 1])
    ensures Trim(s) != "" && Trim(s)[|Trim(s)| - 1] == s[|s| - 1]
  {
    TrimStartShape(s);
  }
}

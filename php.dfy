/**
 * The slice of PHP's value model the ingestion pipeline relies on: decoded
 * JSON values, the `??` lookup, `empty()`, the coercions applied when a value
 * reaches a `string` parameter or a concatenation, and the byte-string
 * functions `str_replace`, `strtolower` and `substr`.
 *
 * PHP strings are byte strings; here a `string` holds one `char` per byte.
 */
module Php {
  import opened Wrappers

  /** A decoded JSON value, as `json_decode($body, true)` hands it over. */
  datatype Value =
    | Null
    | Str(s: string)
    | Num(n: int)
    | Flag(b: bool)
    | List(items: seq<Value>)
    | Dict(entries: seq<Entry>)

  /** One key of a decoded JSON object; a decoded object has distinct keys. */
  datatype Entry = Entry(key: string, val: Value)

  /**
   * What can interrupt a computation. `Exception` is any subclass of
   * `\Exception` (a Carbon parse failure, or the ErrorException Laravel raises
   * for a PHP warning); `TypeError` is a PHP `\Error`, which a
   * `catch (\Exception $e)` block does not catch.
   */
  datatype Fault = Exception | TypeError

  /** `is_array($v)`: JSON lists and objects both decode to PHP arrays. */
  predicate IsArray(v: Value) {
    v.List? || v.Dict?
  }

  /** The values of an array in iteration order (`foreach`, `array_map`). */
  function Elements(v: Value): (r: seq<Value>)
    requires IsArray(v)
    ensures |r| == if v.List? then |v.items| else |v.entries|
    ensures v.List? ==> r == v.items
    ensures v.Dict? ==> forall i :: 0 <= i < |r| ==> r[i] == v.entries[i].val
  {
    if v.List? then v.items else seq(|v.entries|, i requires 0 <= i < |v.entries| => v.entries[i].val)
  }

  /** The value stored under `key` in an object, if the key is there. */
  function Find(entries: seq<Entry>, key: string): (r: Option<Value>)
    ensures r.None? <==> forall i :: 0 <= i < |entries| ==> entries[i].key != key
    ensures r.Some? ==> exists i :: 0 <= i < |entries| && entries[i] == Entry(key, r.value)
  {
    if entries == [] then None
    else if entries[0].key == key then Some(entries[0].val)
    else
      var r := Find(entries[1..], key);
      assert forall i :: 1 <= i < |entries| ==> entries[i] == entries[1..][i - 1];
      r
  }

  /**
   * `$v[key]` as the left operand of `??` or inside `isset`/`empty`: nothing
   * when `v` is not an object, when the key is absent or when it holds null.
   * A list's keys are integers, so a string key never hits one.
   */
  function Field(v: Value, key: string): (r: Option<Value>)
    ensures r.Some? ==> v.Dict? && r.value != Null && Find(v.entries, key) == r
    ensures r.None? ==> !v.Dict? || Find(v.entries, key) in {None, Some(Null)}
  {
    if !v.Dict? then None
    else
      match Find(v.entries, key)
      case None => None
      case Some(x) => if x.Null? then None else Some(x)
  }

  /** `$v[k1][k2]` under `??`. */
  function Path(v: Value, k1: string, k2: string): Option<Value> {
    match Field(v, k1)
    case None => None
    case Some(w) => Field(w, k2)
  }

  /** `$a ?? $b` on two looked-up values: the first one present. */
  function OrElse(a: Option<Value>, b: Option<Value>): Option<Value> {
    if a.Some? then a else b
  }

  /** A looked-up value that can reach a `string` parameter without a TypeError. */
  predicate Scalar(o: Option<Value>) {
    o.None? || !IsArray(o.value)
  }

  /** `empty($x)` for a looked-up value: null, `''`, `'0'`, `0`, `false` and `[]`. */
  predicate Empty(o: Option<Value>) {
    match o
    case None => true
    case Some(v) =>
      match v
      case Null => true
      case Str(s) => Falsy(s)
      case Num(n) => n == 0
      case Flag(b) => !b
      case List(items) => items == []
      case Dict(entries) => entries == []
  }

  /** A string PHP treats as false: `''` and `'0'`. */
  predicate Falsy(s: string) {
    s == "" || s == "0"
  }

  function DigitChar(d: nat): char
    requires d < 10
  {
    "0123456789"[d]
  }

  function Digits(n: nat): string
    decreases n
  {
    if n < 10 then [DigitChar(n)] else Digits(n / 10) + [DigitChar(n % 10)]
  }

  /** The decimal text of an integer, as PHP writes it when converting to string. */
  function Decimal(n: int): string {
    if n < 0 then "-" + Digits(-n) else Digits(n)
  }

  /**
   * A non-null value passed to a `string` parameter in PHP's coercive typing
   * mode: scalars are converted, an array is a TypeError.
   */
  function AsString(v: Value): (r: Result<string, Fault>)
    ensures r.Err? <==> IsArray(v) || v.Null?
    ensures r.Err? ==> r.error == TypeError
    ensures v.Str? ==> r == Ok(v.s)
  {
    match v
    case Str(s) => Ok(s)
    case Num(n) => Ok(Decimal(n))
    case Flag(b) => Ok(if b then "1" else "")
    case _ => Err(TypeError)
  }

  /** `$a[k] ?? default` passed to a `string` parameter. */
  function TextOr(o: Option<Value>, default: string): (r: Result<string, Fault>)
    ensures o.None? ==> r == Ok(default)
    ensures o.Some? && o.value.Str? ==> r == Ok(o.value.s)
    ensures r.Err? <==> o.Some? && IsArray(o.value)
  {
    match o
    case None => Ok(default)
    case Some(v) => if v.Null? then Ok(default) else AsString(v)
  }

  /** `$a[k] ?? null` passed to a `?string` parameter. */
  function OptText(o: Option<Value>): (r: Result<Option<string>, Fault>)
    ensures o.None? ==> r == Ok(None)
    ensures o.Some? && o.value.Str? ==> r == Ok(Some(o.value.s))
    ensures r.Err? <==> o.Some? && IsArray(o.value)
  {
    match o
    case None => Ok(None)
    case Some(v) =>
      if v.Null? then Ok(None)
      else
        match AsString(v)
        case Ok(s) => Ok(Some(s))
        case Err(e) => Err(e)
  }

  /**
   * A value used as an operand of `.`: scalars are converted; an array becomes
   * `'Array'` with a warning, which Laravel's error handler rethrows as an
   * ErrorException.
   */
  function Interpolate(v: Value): (r: Result<string, Fault>)
    ensures r.Err? <==> IsArray(v)
    ensures r.Err? ==> r.error == Exception
    ensures v.Str? ==> r == Ok(v.s)
  {
    match v
    case Null => Ok("")
    case Str(s) => Ok(s)
    case Num(n) => Ok(Decimal(n))
    case Flag(b) => Ok(if b then "1" else "")
    case _ => Err(Exception)
  }

  /** `strtolower` on one byte: ASCII only, as in PHP 8.2 and later. */
  function LowerChar(c: char): char {
    if 'A' <= c <= 'Z' then (c as int + 32) as char else c
  }

  predicate IsLetter(c: char) {
    'A' <= c <= 'Z' || 'a' <= c <= 'z'
  }

  /** `strtolower($s)`. */
  function Lower(s: string): (r: string)
    ensures |r| == |s|
    ensures forall i :: 0 <= i < |s| ==> r[i] == LowerChar(s[i])
  {
    seq(|s|, i requires 0 <= i < |s| => LowerChar(s[i]))
  }

  /** `str_replace($drop, '', $s)` for single-character needles. */
  function Strip(s: string, drop: set<char>): (r: string)
    ensures |r| <= |s|
    ensures forall i :: 0 <= i < |r| ==> r[i] !in drop
    ensures |s| == 1 ==> r == (if s[0] in drop then [] else s)
  {
    if s == [] then []
    else if s[0] in drop then Strip(s[1..], drop)
    else [s[0]] + Strip(s[1..], drop)
  }

  /** Exactly the characters of `s` outside `drop` survive. */
  lemma {:induction false} StripMembers(s: string, drop: set<char>)
    ensures forall c :: c in Strip(s, drop) <==> c in s && c !in drop
  {
    if s != [] {
      StripMembers(s[1..], drop);
      assert forall c :: c in s <==> c == s[0] || c in s[1..];
    }
  }

  /** A string without any of the characters is left as it is. */
  lemma {:induction false} StripKeeps(s: string, drop: set<char>)
    requires forall i :: 0 <= i < |s| ==> s[i] !in drop
    ensures Strip(s, drop) == s
  {
    if s != [] {
      StripKeeps(s[1..], drop);
    }
  }

  /** `str_replace` works piecewise: it distributes over concatenation. */
  lemma {:induction false} StripAppend(a: string, b: string, drop: set<char>)
    ensures Strip(a + b, drop) == Strip(a, drop) + Strip(b, drop)
  {
    if a == [] {
      assert a + b == b;
    } else {
      assert (a + b)[0] == a[0] && (a + b)[1..] == a[1..] + b;
      StripAppend(a[1..], b, drop);
    }
  }

  /** Removing one separator between two words joins them. */
  lemma {:induction false} StripJoin(a: string, sep: char, b: string, drop: set<char>)
    requires forall i :: 0 <= i < |a| ==> a[i] !in drop
    requires forall i :: 0 <= i < |b| ==> b[i] !in drop
    requires sep in drop
    ensures Strip(a + [sep] + b, drop) == a + b
  {
    StripKeeps(a, drop);
    StripKeeps(b, drop);
    StripAppend(a + [sep], b, drop);
    StripAppend(a, [sep], drop);
  }

  /** Removing two separators joins three words. */
  lemma {:induction false} StripJoin3(a: string, s1: char, b: string, s2: char, c: string, drop: set<char>)
    requires forall i :: 0 <= i < |a| ==> a[i] !in drop
    requires forall i :: 0 <= i < |b| ==> b[i] !in drop
    requires forall i :: 0 <= i < |c| ==> c[i] !in drop
    requires s1 in drop && s2 in drop
    ensures Strip(a + [s1] + b + [s2] + c, drop) == a + b + c
  {
    StripJoin(a, s1, b, drop);
    StripKeeps(c, drop);
    StripAppend(a + [s1] + b, [s2] + c, drop);
    StripAppend([s2], c, drop);
    assert a + [s1] + b + [s2] + c == (a + [s1] + b) + ([s2] + c);
  }

  /**
   * `substr($s, 0, $n)`: a non-negative `n` keeps the first `n` bytes, a
   * negative one drops `-n` bytes from the end (nothing left if too many).
   */
  function Prefix(s: string, n: int): (r: string)
    ensures 0 <= n <= |s| ==> r == s[..n]
    ensures n > |s| ==> r == s
    ensures n < 0 ==> r == if |s| + n > 0 then s[..|s| + n] else ""
  {
    if n >= 0 then (if n <= |s| then s[..n] else s)
    else if |s| + n > 0 then s[..|s| + n]
    else ""
  }
}

/** What the React pages of the web client rely on from JavaScript: ASCII
    lower-casing, String.prototype.includes, parseInt, and the outcome of an
    axios request. */
module WebClient {
  import opened Wrappers
  import opened Models
  import opened Strconv
  import Handlers

  // ----- toLowerCase and includes -----

  /** toLowerCase on one character, for ASCII letters. */
  function Lower(c: char): char {
    if 'A' <= c <= 'Z' then (c as int + 32) as char else c
  }

  function LowerStr(s: string): (r: string)
    ensures |r| == |s|
    ensures forall i :: 0 <= i < |s| ==> r[i] == Lower(s[i])
  {
    seq(|s|, i requires 0 <= i < |s| => Lower(s[i]))
  }

  /** sub occurs in s starting at position i. */
  predicate OccursAt(s: string, sub: string, i: int) {
    0 <= i <= |s| - |sub| && s[i..i + |sub|] == sub
  }

  /** s.includes(sub): sub occurs in s at some position. */
  predicate Contains(s: string, sub: string) {
    exists i :: 0 <= i <= |s| && OccursAt(s, sub, i)
  }

  lemma EmptyContained(s: string)
    ensures Contains(s, "")
  {
    assert OccursAt(s, "", 0);
  }

  /** Containment is transitive. */
  lemma ContainsTransitive(a: string, b: string, c: string)
    requires Contains(a, b) && Contains(b, c)
    ensures Contains(a, c)
  {
    var i :| 0 <= i <= |a| && OccursAt(a, b, i);
    var j :| 0 <= j <= |b| && OccursAt(b, c, j);
    forall k | 0 <= k < |c| ensures a[i + j + k] == c[k] {
      assert b[j + k] == c[k];
      assert a[i + (j + k)] == b[j + k];
    }
    assert a[i + j..i + j + |c|] == c;
    assert OccursAt(a, c, i + j);
  }

  /** Lower-casing keeps an occurrence where it was. */
  lemma LowerContains(s: string, sub: string)
    requires Contains(s, sub)
    ensures Contains(LowerStr(s), LowerStr(sub))
  {
    var i :| 0 <= i <= |s| && OccursAt(s, sub, i);
    forall k | 0 <= k < |sub| ensures LowerStr(s)[i + k] == LowerStr(sub)[k] {
      assert s[i + k] == sub[k];
    }
    assert LowerStr(s)[i..i + |sub|] == LowerStr(sub);
    assert OccursAt(LowerStr(s), LowerStr(sub), i);
  }

  /** Lower-casing twice is lower-casing once. */
  lemma LowerIdempotent(s: string)
    ensures LowerStr(LowerStr(s)) == LowerStr(s)
  {
  }

  // ----- parseInt -----

  /** The white space parseInt skips (WhiteSpace and LineTerminator of
      ECMAScript): tab, the vertical tab, form feed, the byte-order mark, the
      line terminators LF, CR, U+2028 and U+2029, and every character of the
      Unicode category Zs (SPACE, NO-BREAK SPACE, OGHAM SPACE MARK, U+2000 to
      U+200A, NARROW NO-BREAK SPACE, MEDIUM MATHEMATICAL SPACE and
      IDEOGRAPHIC SPACE). */
  predicate IsJsSpace(c: char) {
    c == '\t' || c == '\U{000B}' || c == '\U{000C}' || c == '\U{FEFF}' ||
    c == '\n' || c == '\r' || c == '\U{2028}' || c == '\U{2029}' ||
    c == ' ' || c == '\U{00A0}' || c == '\U{1680}' || '\U{2000}' <= c <= '\U{200A}' ||
    c == '\U{202F}' || c == '\U{205F}' || c == '\U{3000}'
  }

  function TrimStart(s: string): (r: string)
    ensures |r| <= |s| && r == s[|s| - |r|..]
    ensures |r| > 0 ==> !IsJsSpace(r[0])
  {
    if |s| > 0 && IsJsSpace(s[0]) then TrimStart(s[1..]) else s
  }

  /** The longest prefix of decimal digits. */
  function DigitPrefix(s: string): (r: string)
    ensures AllDigits(r) && r <= s
    ensures |r| < |s| ==> !IsDigit(s[|r|])
  {
    if |s| > 0 && IsDigit(s[0]) then [s[0]] + DigitPrefix(s[1..]) else []
  }

  predicate IsHexDigit(c: char) {
    IsDigit(c) || 'a' <= c <= 'f' || 'A' <= c <= 'F'
  }

  function HexValue(c: char): nat
    requires IsHexDigit(c)
  {
    if IsDigit(c) then DigitValue(c)
    else if 'a' <= c <= 'f' then (c as int) - ('a' as int) + 10
    else (c as int) - ('A' as int) + 10
  }

  /** The longest prefix of hexadecimal digits. */
  function HexPrefix(s: string): (r: string)
    ensures r <= s && forall i :: 0 <= i < |r| ==> IsHexDigit(r[i])
    ensures |r| < |s| ==> !IsHexDigit(s[|r|])
  {
    if |s| > 0 && IsHexDigit(s[0]) then [s[0]] + HexPrefix(s[1..]) else []
  }

  function HexFold(s: string, n: int): int
    requires forall i :: 0 <= i < |s| ==> IsHexDigit(s[i])
  {
    if |s| == 0 then n else HexFold(s[1..], n * 16 + HexValue(s[0]))
  }

  /** parseInt(s) with no radix: leading white space, an optional sign, a
      "0x" prefix for hexadecimal, then the longest run of digits; None is
      NaN, when there is no digit. */
  function JsParseInt(s: string): Option<int> {
    ParseTrimmed(TrimStart(s))
  }

  /** parseInt after its leading white space is skipped. */
  function ParseTrimmed(t: string): Option<int> {
    var neg := |t| > 0 && t[0] == '-';
    var u := if |t| > 0 && (t[0] == '+' || t[0] == '-') then t[1..] else t;
    var magnitude :=
      if |u| >= 2 && u[0] == '0' && (u[1] == 'x' || u[1] == 'X') then
        var h := HexPrefix(u[2..]);
        if |h| == 0 then None else Some(HexFold(h, 0))
      else
        var d := DigitPrefix(u);
        if |d| == 0 then None else Some(Fold(d, 0));
    match magnitude
    case None => None
    case Some(m) => Some(if neg then -m else m)
  }

  lemma {:induction false} DigitPrefixAll(s: string)
    requires AllDigits(s)
    ensures DigitPrefix(s) == s
  {
    if |s| > 0 {
      DigitPrefixAll(s[1..]);
    }
  }

  /** Every id text the backend's Atoi accepts is read by parseInt as the
      same number, so the page looks up the deputy the backend was asked about. */
  lemma ParseIntAgreesWithAtoi(s: string)
    requires Atoi(s).err == NoError
    ensures JsParseInt(s) == Some(Atoi(s).value)
  {
    AtoiSpec(s);
    assert s[0] == '+' || s[0] == '-' || IsDigit(s[0]);
    assert !IsJsSpace(s[0]);
    assert TrimStart(s) == s;
    DigitPrefixAll(Body(s));
  }

  /** Any run of leading white space is skipped. */
  lemma {:induction false} TrimStartSpace(w: string, s: string)
    requires forall i :: 0 <= i < |w| ==> IsJsSpace(w[i])
    ensures TrimStart(w + s) == TrimStart(s)
    decreases |w|
  {
    var t := w + s;
    if |w| > 0 {
      assert t[0] == w[0] && IsJsSpace(t[0]);
      assert t[1..] == w[1..] + s;
      assert TrimStart(t) == TrimStart(t[1..]);
      TrimStartSpace(w[1..], s);
    } else {
      assert t == s;
    }
  }

  /** An id the backend accepts is read the same after any run of white space. */
  lemma ParseIntSpacedId(w: string, s: string)
    requires forall i :: 0 <= i < |w| ==> IsJsSpace(w[i])
    requires Atoi(s).err == NoError
    ensures JsParseInt(w + s) == Some(Atoi(s).value)
  {
    TrimStartSpace(w, s);
    ParseIntAgreesWithAtoi(s);
  }

  /** A text with no digit is NaN, which equals no id. */
  lemma ParseIntNoDigits(s: string)
    requires forall i :: 0 <= i < |s| ==> !IsDigit(s[i])
    ensures JsParseInt(s) == None
  {
    var t := TrimStart(s);
    var u := if |t| > 0 && (t[0] == '+' || t[0] == '-') then t[1..] else t;
    assert forall i :: 0 <= i < |u| ==> !IsDigit(u[i]);
  }

  // ----- axios -----

  /** An awaited request: rejected (network error or a non-2xx status), or
      resolved with the decoded body. */
  datatype Fetch<T> = Rejected | Resolved(data: T)

  /** What axios makes of a handler's response: any error status, and a
      crashed server, reject. */
  function Received<T>(r: Handlers.Response<T>): (f: Fetch<T>)
    ensures f.Resolved? <==> r.Ok?
    ensures f.Resolved? ==> f.data == r.body
  {
    match r
    case Ok(body) => Resolved(body)
    case ErrorResponse(_, _) => Rejected
    case Crashed => Rejected
  }

  /** Array.prototype.find over the deputies by id === parseInt(input): the
      first deputy with that id; None is undefined, also for NaN. */
  function FindById(deps: seq<Deputado>, id: Option<int>): (r: Option<Deputado>)
    ensures r.Some? ==> id.Some? && r.value in deps && r.value.id == id.value
    ensures r.None? <==> id.None? || forall d :: d in deps ==> d.id != id.value
    ensures r.Some? ==>
      exists k :: (0 <= k < |deps| && deps[k] == r.value &&
                   forall j :: 0 <= j < k ==> deps[j].id != id.value)
  {
    if id.None? || |deps| == 0 then None
    else if deps[0].id == id.value then Some(deps[0])
    else
      var r := FindById(deps[1..], id);
      assert r.Some? ==>
        exists k :: (0 <= k < |deps| - 1 && deps[1..][k] == r.value &&
                     forall j :: 0 <= j < k ==> deps[1..][j].id != id.value);
      assert r.Some? ==>
        exists k :: (0 <= k < |deps| && deps[k] == r.value &&
                     forall j :: 0 <= j < k ==> deps[j].id != id.value);
      assert r.None? <==> forall d :: d in deps[1..] ==> d.id != id.value;
      assert forall d :: d in deps ==> d == deps[0] || d in deps[1..];
      r
  }
}

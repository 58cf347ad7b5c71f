/**
 * The `host:port` argument of `Engine.start_server`: everything before the
 * first colon is the host, the rest is read with Python 2's `int()`, and a
 * bare host gets port 8000.
 */
module HostPort {
  import opened Wrappers

  /** The port the development server listens on when none is given. */
  const DefaultPort: int := 8000

  datatype Address = Address(host: string, port: int)

  // ---------------------------------------------------------------------
  // int() on a string
  // ---------------------------------------------------------------------

  /** The characters `str.strip()` and `int()` treat as whitespace. */
  predicate IsSpace(c: char) { c == ' ' || '\t' <= c <= '\r' }

  predicate IsDigit(c: char) { '0' <= c <= '9' }

  predicate AllDigits(s: string) {
    forall k :: 0 <= k < |s| ==> IsDigit(s[k])
  }

  predicate AllSpace(s: string) {
    forall k :: 0 <= k < |s| ==> IsSpace(s[k])
  }

  /** The value of a run of decimal digits, most significant first. */
  function DigitsValue(s: string): nat
    requires AllDigits(s)
  {
    if s == [] then 0
    else DigitsValue(s[..|s| - 1]) * 10 + ((s[|s| - 1] as int) - ('0' as int))
  }

  function TrimLeft(s: string): (r: string)
    ensures r == [] || !IsSpace(r[0])
  {
    if s != [] && IsSpace(s[0]) then TrimLeft(s[1..]) else s
  }

  function TrimRight(s: string): (r: string)
    ensures r == [] || !IsSpace(r[|r| - 1])
  {
    if s != [] && IsSpace(s[|s| - 1]) then TrimRight(s[..|s| - 1]) else s
  }

  /** The literal without its surrounding whitespace. */
  function Trim(s: string): string {
    TrimRight(TrimLeft(s))
  }

  /**
   * `int(s)` for a base-10 string: surrounding whitespace, an optional sign,
   * then at least one digit; anything else is a `ValueError`.
   */
  function ParseInt(s: string): Result<int, string> {
    var t := Trim(s);
    var signed := t != [] && (t[0] == '-' || t[0] == '+');
    var body := if signed then t[1..] else t;
    if body != [] && AllDigits(body) then
      var magnitude: int := DigitsValue(body);
      Ok(if signed && t[0] == '-' then -magnitude else magnitude)
    else
      Err("ValueError: invalid literal for int() with base 10")
  }

  /** `str(n)` for a natural number: its decimal digits without leading zeros. */
  function ShowNat(n: nat): (r: string)
    ensures r != [] && AllDigits(r)
  {
    var last := [(('0' as int) + n % 10) as char];
    if n < 10 then last else ShowNat(n / 10) + last
  }

  /** `str(n)`: a minus sign in front of a negative number. */
  function Show(n: int): string {
    if n < 0 then "-" + ShowNat(-n) else ShowNat(n)
  }

  lemma {:induction false} ShowNatValue(n: nat)
    ensures DigitsValue(ShowNat(n)) == n
  {
    var r := ShowNat(n);
    if n >= 10 {
      ShowNatValue(n / 10);
      assert r[..|r| - 1] == ShowNat(n / 10);
    }
  }

  /** A text that is all whitespace vanishes when trimmed. */
  lemma {:induction false} TrimLeftSpace(s: string)
    requires AllSpace(s)
    ensures TrimLeft(s) == []
  {
    if s != [] {
      TrimLeftSpace(s[1..]);
    }
  }

  lemma DigitsUntrimmed(s: string)
    requires s != [] && AllDigits(s)
    ensures Trim(s) == s
  {
  }

  /** A run of digits reads as its value. */
  lemma ParseDigits(d: string)
    requires d != [] && AllDigits(d)
    ensures ParseInt(d) == Ok(DigitsValue(d))
  {
    DigitsUntrimmed(d);
  }

  /** A minus sign followed by a run of digits reads as the negated value. */
  lemma ParseNegated(d: string)
    requires d != [] && AllDigits(d)
    ensures ParseInt("-" + d) == Ok(-(DigitsValue(d) as int))
  {
    var t := "-" + d;
    assert t[1..] == d;
    assert TrimLeft(t) == t;
    assert TrimRight(t) == t;
  }

  /** `int(str(n)) == n`. */
  lemma ParseShow(n: int)
    ensures ParseInt(Show(n)) == Ok(n)
  {
    if n < 0 {
      ShowNatValue(-n);
      ParseNegated(ShowNat(-n));
    } else {
      ShowNatValue(n);
      ParseDigits(ShowNat(n));
    }
  }

  /** An empty or all-blank port is refused. */
  lemma BlankRefused(s: string)
    requires AllSpace(s)
    ensures ParseInt(s).Err?
  {
    TrimLeftSpace(s);
  }

  // ---------------------------------------------------------------------
  // The host:port split
  // ---------------------------------------------------------------------

  /** The position of the first `':'`, if any. */
  function FirstColon(s: string): (r: Option<nat>)
    ensures r.None? <==> ':' !in s
    ensures r.Some? ==> r.value < |s| && s[r.value] == ':' && ':' !in s[..r.value]
  {
    if s == [] then None
    else if s[0] == ':' then Some(0)
    else
      match FirstColon(s[1..])
      case None => None
      case Some(i) =>
        assert s[..i + 1] == [s[0]] + s[1..][..i];
        Some(i + 1)
  }

  /**
   * `host, port = hostport.split(':', 1); port = int(port)` when the text
   * has a colon, `(hostport, 8000)` otherwise.
   */
  function Parse(hostport: string): (r: Result<Address, string>)
    ensures r.Ok? ==> ':' !in r.value.host
  {
    match FirstColon(hostport)
    case None => Ok(Address(hostport, DefaultPort))
    case Some(i) =>
      match ParseInt(hostport[i + 1..])
      case Ok(port) => Ok(Address(hostport[..i], port))
      case Err(e) => Err(e)
  }

  /** Without a colon the whole text is the host and the port is the default. */
  lemma NoColon(s: string)
    requires ':' !in s
    ensures Parse(s) == Ok(Address(s, DefaultPort))
  {
  }

  /** The split is at the first colon: the port text is everything after it. */
  lemma SplitAtFirst(host: string, rest: string)
    requires ':' !in host
    ensures Parse(host + ":" + rest) ==
              match ParseInt(rest)
              case Ok(port) => Ok(Address(host, port))
              case Err(e) => Err(e)
  {
    var s := host + ":" + rest;
    var i := FirstColon(s);
    assert s[|host|] == ':';
    assert s[..|host|] == host;
    assert i.value == |host|;
    assert s[|host| + 1..] == rest;
  }

  /** `Parse` reads back every host and port it could be given as `host:port`. */
  lemma RoundTrip(host: string, port: int)
    requires ':' !in host
    ensures Parse(host + ":" + Show(port)) == Ok(Address(host, port))
  {
    SplitAtFirst(host, Show(port));
    ParseShow(port);
  }

  /** A trailing colon with no port is a `ValueError`. */
  lemma EmptyPortRefused(host: string)
    requires ':' !in host
    ensures Parse(host + ":").Err?
  {
    SplitAtFirst(host, "");
    assert host + ":" == host + ":" + "";
    BlankRefused("");
  }

  /** A second colon ends up in the port text, which `int()` refuses. */
  lemma SecondColonRefused(host: string, a: string, b: string)
    requires ':' !in host
    ensures Parse(host + ":" + a + ":" + b).Err?
  {
    var rest := a + ":" + b;
    assert host + ":" + a + ":" + b == host + ":" + rest;
    SplitAtFirst(host, rest);
    ColonRefused(a, b);
  }

  lemma ColonRefused(a: string, b: string)
    ensures ParseInt(a + ":" + b).Err?
  {
    var s := a + ":" + b;
    assert s[|a|] == ':';
    var t := Trim(s);
    TrimKeeps(s, |a|);
    var k :| 0 <= k < |t| && t[k] == ':';
    if t[0] == '-' || t[0] == '+' {
      assert t[1..][k - 1] == ':';
    } else {
      assert !IsDigit(t[k]);
    }
  }

  /** A character that is not whitespace survives trimming. */
  lemma TrimKeeps(s: string, i: nat)
    requires i < |s| && !IsSpace(s[i])
    ensures exists k :: 0 <= k < |Trim(s)| && Trim(s)[k] == s[i]
  {
    var l := TrimLeftKeeps(s, i);
    var k := TrimRightKeeps(TrimLeft(s), l);
    assert Trim(s)[k] == s[i];
  }

  lemma {:induction false} TrimLeftKeeps(s: string, i: nat) returns (k: nat)
    requires i < |s| && !IsSpace(s[i])
    ensures k < |TrimLeft(s)| && TrimLeft(s)[k] == s[i]
  {
    if s != [] && IsSpace(s[0]) {
      k := TrimLeftKeeps(s[1..], i - 1);
    } else {
      k := i;
    }
  }

  lemma {:induction false} TrimRightKeeps(s: string, i: nat) returns (k: nat)
    requires i < |s| && !IsSpace(s[i])
    ensures k < |TrimRight(s)| && TrimRight(s)[k] == s[i]
  {
    if s != [] && IsSpace(s[|s| - 1]) {
      k := TrimRightKeeps(s[..|s| - 1], i);
    } else {
      k := i;
    }
  }
}

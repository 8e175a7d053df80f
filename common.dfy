/** Types shared by the services and handlers of the deployment API: the
    optional values of Python, the inbound request, the ordered file set a
    code generator produces, and the decimal rendering of integers that the
    f-strings of the handlers perform. */
module Common {

  datatype Option<+T> = None | Some(value: T)

  datatype Result<+T, +E> = Ok(value: T) | Err(error: E)

  /** The text Python's f-string substitutes for an `Optional[str]`:
      the string itself, or "None" when the value is absent. */
  function Show(o: Option<string>): string
  {
    match o
    case Some(s) => s
    case None => "None"
  }

  /** Python truthiness of an `Optional[str]`: present and non-empty. */
  predicate Truthy(o: Option<string>)
  {
    o.Some? && o.value != ""
  }

  /** The validated inbound body of `POST /` (RequestPayload in api/main.py).
      The untyped `attachments` list is not modelled. */
  datatype RequestPayload = RequestPayload(
    email: string,
    secret: string,
    task: string,
    round: int,
    nonce: string,
    brief: Option<string>,
    checks: Option<seq<string>>,
    evaluationUrl: Option<string>)

  /** The dict both handlers return to the caller. */
  datatype ResponseRecord = ResponseRecord(
    status: string,
    message: string,
    email: string,
    task: string,
    round: int,
    nonce: string,
    repoUrl: string,
    commitSha: string,
    pagesUrl: string)

  // ---------------------------------------------------------------------
  // Generated file sets: a Python dict from file name to content, which
  // iterates in insertion order and never holds a name twice.
  // ---------------------------------------------------------------------

  predicate DistinctNames(fs: seq<(string, string)>)
  {
    forall i, j :: 0 <= i < j < |fs| ==> fs[i].0 != fs[j].0
  }

  type CodeFiles = fs: seq<(string, string)> | DistinctNames(fs)

  function Names(fs: seq<(string, string)>): set<string>
  {
    set e | e in fs :: e.0
  }

  /** The dict as a map; a later entry overrides an earlier one. */
  function AsMap(fs: seq<(string, string)>): (m: map<string, string>)
    ensures m.Keys == Names(fs)
    ensures DistinctNames(fs) ==> forall k :: 0 <= k < |fs| ==> m[fs[k].0] == fs[k].1
    decreases |fs|
  {
    if fs == [] then map[]
    else
      var init := fs[..|fs| - 1];
      assert fs == init + [fs[|fs| - 1]];
      assert Names(fs) == Names(init) + {fs[|fs| - 1].0};
      AsMap(init)[fs[|fs| - 1].0 := fs[|fs| - 1].1]
  }

  /** `name in code_files` and `code_files[name]`. */
  function Lookup(fs: seq<(string, string)>, name: string): (r: Option<string>)
    ensures r.Some? <==> name in Names(fs)
    ensures r.Some? ==> exists k :: 0 <= k < |fs| && fs[k] == (name, r.value)
    decreases |fs|
  {
    if fs == [] then None
    else if fs[0].0 == name then Some(fs[0].1)
    else
      assert Names(fs) == {fs[0].0} + Names(fs[1..]) by {
        assert forall e :: e in fs <==> e == fs[0] || e in fs[1..];
      }
      var r := Lookup(fs[1..], name);
      if r.Some? then
        var k :| 0 <= k < |fs[1..]| && fs[1..][k] == (name, r.value);
        assert fs[k + 1] == (name, r.value);
        r
      else r
  }

  // ---------------------------------------------------------------------
  // Python's str(int) for the "Round {n} ..." messages, and its inverse.
  // ---------------------------------------------------------------------

  predicate IsDigit(c: char)
  {
    '0' <= c <= '9'
  }

  function DigitChar(d: nat): (c: char)
    requires d < 10
    ensures IsDigit(c) && (c as int) - ('0' as int) == d
  {
    "0123456789"[d]
  }

  /** Decimal digits of n, most significant first, without leading zeros. */
  function NatToString(n: nat): (s: string)
    ensures |s| >= 1
    ensures forall k :: 0 <= k < |s| ==> IsDigit(s[k])
    ensures |s| > 1 ==> s[0] != '0'
    decreases n
  {
    if n < 10 then [DigitChar(n)]
    else NatToString(n / 10) + [DigitChar(n % 10)]
  }

  function IntToString(i: int): (s: string)
    ensures |s| >= 1
  {
    if i < 0 then "-" + NatToString(-i) else NatToString(i)
  }

  /** Value of a string of decimal digits. */
  function DigitsValue(s: string): nat
    requires forall k :: 0 <= k < |s| ==> IsDigit(s[k])
    decreases |s|
  {
    if s == [] then 0
    else DigitsValue(s[..|s| - 1]) * 10 + DigitValue(s[|s| - 1])
  }

  function DigitValue(c: char): (d: nat)
    requires IsDigit(c)
    ensures d < 10
  {
    (c as int) - ('0' as int)
  }

  /** Reads back an integer written by IntToString. */
  function ParseInt(s: string): Option<int>
  {
    if |s| >= 2 && s[0] == '-' && forall k :: 1 <= k < |s| ==> IsDigit(s[k]) then
      var v: int := -(DigitsValue(s[1..]) as int);
      Some(v)
    else if |s| >= 1 && forall k :: 0 <= k < |s| ==> IsDigit(s[k]) then
      Some(DigitsValue(s))
    else None
  }

  lemma {:induction false} DigitsValueOfNatToString(n: nat)
    ensures DigitsValue(NatToString(n)) == n
    decreases n
  {
    if n >= 10 {
      DigitsValueOfNatToString(n / 10);
      var s := NatToString(n);
      assert s[..|s| - 1] == NatToString(n / 10);
    }
  }

  /** `f"Round {n}{suffix}"`. */
  function RoundMessage(round: int, suffix: string): string
  {
    "Round " + IntToString(round) + suffix
  }

  /** The round number can be read back from such a message. */
  lemma RoundMessageNamesRound(round: int, suffix: string)
    ensures var m := RoundMessage(round, suffix);
            |m| >= 6 + |suffix| && ParseInt(m[6..|m| - |suffix|]) == Some(round)
  {
    var m := RoundMessage(round, suffix);
    assert m[6..|m| - |suffix|] == IntToString(round);
    ParseIntToString(round);
  }

  /** A minus sign followed by digits reads as the negated digits' value. */
  lemma ParseNegative(t: string)
    requires |t| >= 1 && forall k :: 0 <= k < |t| ==> IsDigit(t[k])
    ensures ParseInt("-" + t) == Some(-(DigitsValue(t) as int))
  {
    var s := "-" + t;
    assert s[1..] == t;
    assert forall k :: 1 <= k < |s| ==> s[k] == t[k - 1];
  }

  /** The rendering of an integer determines the integer. */
  lemma ParseIntToString(i: int)
    ensures ParseInt(IntToString(i)) == Some(i)
  {
    if i < 0 {
      DigitsValueOfNatToString(-i);
      ParseNegative(NatToString(-i));
    } else {
      DigitsValueOfNatToString(i);
      assert IsDigit(IntToString(i)[0]);
    }
  }
}

/**
 * Helpers shared by the controllers: identifier formatting over the running
 * counters (`nextId`) and removal of undefined keys from an object
 * (`delEmpObjValue`).
 */
module Common {
  import opened Wrappers
  import SequenceModel

  predicate IsDigit(c: char)
  {
    '0' <= c <= '9'
  }

  predicate AllDigits(s: string)
  {
    forall i :: 0 <= i < |s| ==> IsDigit(s[i])
  }

  function DigitChar(d: nat): (c: char)
    requires d < 10
    ensures IsDigit(c) && c as int - '0' as int == d
  {
    ('0' as int + d) as char
  }

  /** The text JavaScript gives a non-negative integer in a template literal. */
  function Decimal(n: nat): (s: string)
    ensures |s| >= 1 && AllDigits(s)
    ensures s[0] == '0' ==> n == 0
    decreases n
  {
    if n < 10 then [DigitChar(n)] else Decimal(n / 10) + [DigitChar(n % 10)]
  }

  /** The number a string of decimal digits denotes, leading zeros allowed. */
  function DigitsValue(s: string): nat
    requires AllDigits(s)
    decreases |s|
  {
    if s == [] then 0 else DigitsValue(s[..|s| - 1]) * 10 + (s[|s| - 1] as int - '0' as int)
  }

  /** Reading the decimal text of a number gives the number back. */
  lemma {:induction false} DecimalRoundTrip(n: nat)
    ensures DigitsValue(Decimal(n)) == n
    decreases n
  {
    if n >= 10 {
      var s := Decimal(n);
      assert s[..|s| - 1] == Decimal(n / 10);
      DecimalRoundTrip(n / 10);
    }
  }

  /** `k` copies of `c`. */
  function Repeat(c: char, k: nat): (r: string)
    ensures |r| == k && forall i :: 0 <= i < k ==> r[i] == c
    decreases k
  {
    if k == 0 then [] else [c] + Repeat(c, k - 1)
  }

  /** Leading zeros do not change the value of a digit string. */
  lemma {:induction false} LeadingZerosValue(k: nat, s: string)
    requires AllDigits(s)
    ensures AllDigits(Repeat('0', k) + s)
    ensures DigitsValue(Repeat('0', k) + s) == DigitsValue(s)
    decreases |s|, k
  {
    var t := Repeat('0', k) + s;
    assert AllDigits(t);
    if s == [] {
      assert t == Repeat('0', k);
      if k > 0 {
        assert t[..|t| - 1] == Repeat('0', k - 1) + [];
        LeadingZerosValue(k - 1, []);
      }
    } else {
      assert t[..|t| - 1] == Repeat('0', k) + s[..|s| - 1];
      LeadingZerosValue(k, s[..|s| - 1]);
    }
  }

  /**
   * `String.prototype.padStart(target, fill)` with a one-character fill: fill
   * on the left up to `target` characters, never truncating.
   */
  function PadStart(s: string, target: int, fill: char): (r: string)
    ensures |r| == if target > |s| then target else |s|
    ensures r[|r| - |s|..] == s
    ensures forall i :: 0 <= i < |r| - |s| ==> r[i] == fill
  {
    if target <= |s| then s else Repeat(fill, target - |s|) + s
  }

  /** The identifier `nextId` builds from a prefix and a running number. */
  function FormatId(prefix: string, n: nat, padLength: int): string
  {
    prefix + "-" + PadStart(Decimal(n), padLength, '0')
  }

  /** The running number inside an identifier `prefix-digits`, if it has that shape. */
  function ParseId(prefix: string, id: string): (r: Option<nat>)
    ensures r.Some? ==> |id| > |prefix| + 1 && id[..|prefix| + 1] == prefix + "-"
  {
    if |id| > |prefix| + 1 && id[..|prefix| + 1] == prefix + "-" && AllDigits(id[|prefix| + 1..])
    then Some(DigitsValue(id[|prefix| + 1..]))
    else None
  }

  /** Every identifier `nextId` formats has the shape `prefix-digits` and reads back to its number. */
  lemma {:induction false} FormatIdRoundTrip(prefix: string, n: nat, padLength: int)
    ensures ParseId(prefix, FormatId(prefix, n, padLength)) == Some(n)
  {
    var d := Decimal(n);
    var padded := PadStart(d, padLength, '0');
    var id := FormatId(prefix, n, padLength);
    assert id[..|prefix| + 1] == prefix + "-";
    assert id[|prefix| + 1..] == padded;
    var k := |padded| - |d|;
    assert padded == Repeat('0', k) + d;
    LeadingZerosValue(k, d);
    DecimalRoundTrip(n);
  }

  /** Distinct running numbers give distinct identifiers, whatever the padding. */
  lemma FormatIdInjective(prefix: string, n: nat, m: nat, padN: int, padM: int)
    requires FormatId(prefix, n, padN) == FormatId(prefix, m, padM)
    ensures n == m
  {
    FormatIdRoundTrip(prefix, n, padN);
    FormatIdRoundTrip(prefix, m, padM);
  }

  /** The documented example (13 padded to 4 is "0013") and the default width of 8. */
  lemma PadExamples()
    ensures PadStart(Decimal(13), 4, '0') == "0013"
    ensures FormatId("JOB", 13, 8) == "JOB-00000013"
  {
  }

  /** With a blank id the number is "0": the identifier ends in `padLength` zeros (one if the width is below 1). */
  lemma BlankIdFormat(prefix: string, padLength: int)
    ensures FormatId(prefix, 0, padLength) == prefix + "-" + Repeat('0', if padLength > 1 then padLength else 1)
  {
  }

  /**
   * `nextId(id, prefix, padLength)`: take the next running number of `id`
   * (none for a blank id, which stands for "0") and format it.
   */
  method NextId(store: SequenceModel.SequenceStore, id: string := "", prefix: string := "", padLength: int := 8)
    returns (r: string)
    modifies store
    ensures id == "" ==> store.counters == old(store.counters) && r == FormatId(prefix, 0, padLength)
    ensures id != "" ==> store.counters == SequenceModel.Bump(old(store.counters), id)
    ensures id != "" ==> r == FormatId(prefix, SequenceModel.CounterOf(old(store.counters), id) + 1, padLength)
  {
    var text := "0";
    if id != "" {
      var n := store.Next(id);
      text := Decimal(n);
    }
    assert Decimal(0) == "0";
    r := prefix + "-" + PadStart(text, padLength, '0');
  }

  /** A JavaScript value, as far as `delEmpObjValue` looks at it. */
  datatype JsValue = Undefined | Null | Bool(b: bool) | Num(x: int) | Str(s: string) | Obj(o: JsObject)

  /** A plain object whose own enumerable properties are `props`. */
  class JsObject {
    var props: map<string, JsValue>

    constructor (props: map<string, JsValue>)
      ensures this.props == props
    {
      this.props := props;
    }
  }

  /** The properties that remain once every key whose value is undefined is gone. */
  function Defined(m: map<string, JsValue>): (r: map<string, JsValue>)
    ensures forall k :: k in r <==> k in m && m[k] != Undefined
    ensures forall k :: k in r ==> r[k] == m[k]
  {
    map k | k in m && m[k] != Undefined :: m[k]
  }

  /** Dropping undefined keys a second time changes nothing. */
  lemma DefinedIdempotent(m: map<string, JsValue>)
    ensures Defined(Defined(m)) == Defined(m)
  {
  }

  /**
   * `delEmpObjValue(obj)`: for an object, delete in place each key whose value
   * is undefined and return the same object; return any other value
   * unchanged. `typeof null` is 'object' too, and `Object.keys(null)` throws a
   * TypeError, which is the `Err` result.
   */
  method DelEmpObjValue(v: JsValue) returns (r: Result<JsValue, string>)
    modifies if v.Obj? then {v.o} else {}
    ensures v.Null? ==> r == Err("TypeError")
    ensures !v.Null? ==> r == Ok(v)
    ensures v.Obj? ==> v.o.props == Defined(old(v.o.props))
  {
    if v.Null? {
      return Err("TypeError");
    }
    if v.Obj? {
      var o := v.o;
      var empty := set k | k in o.props && o.props[k] == Undefined;
      var todo := empty;
      while todo != {}
        invariant todo <= empty
        invariant o.props == old(o.props) - (empty - todo)
        decreases todo
      {
        var k :| k in todo;
        o.props := o.props - {k};
        todo := todo - {k};
      }
      assert o.props == Defined(old(o.props));
    }
    r := Ok(v);
  }
}

/** New Audit IDs (core/audit_compatibility.py). */
module AuditIds {
  import opened Wrappers

  /** `str(n)`. */
  function Decimal(n: nat): (s: string)
    ensures s != ""
  {
    if n < 10 then [('0' as int + n) as char] else Decimal(n / 10) + [('0' as int + n % 10) as char]
  }

  /** `f"{n:03d}"`. */
  function Padded(n: nat): string
  {
    var s := Decimal(n);
    if |s| == 1 then "00" + s else if |s| == 2 then "0" + s else s
  }

  /** The number that digits stand for. */
  function Value(s: string): int
  {
    if s == "" then 0 else Value(s[..|s| - 1]) * 10 + (s[|s| - 1] as int - '0' as int)
  }

  lemma {:induction false} DecimalValue(n: nat)
    ensures Value(Decimal(n)) == n
  {
    if n < 10 {
      assert Decimal(n)[..0] == "";
    } else {
      DecimalValue(n / 10);
      var s := Decimal(n);
      assert s[..|s| - 1] == Decimal(n / 10);
    }
  }

  lemma {:induction false} ZeroInFront(s: string)
    ensures Value("0" + s) == Value(s)
  {
    if s == "" {
      assert ("0" + s)[..0] == "";
    } else {
      ZeroInFront(s[..|s| - 1]);
      assert ("0" + s)[..|s|] == "0" + s[..|s| - 1];
    }
  }

  lemma PaddedValue(n: nat)
    ensures Value(Padded(n)) == n
  {
    hide Value, Decimal;
    var s := Decimal(n);
    DecimalValue(n);
    ZeroInFront(s);
    ZeroInFront("0" + s);
    assert "00" + s == "0" + ("0" + s);
  }

  /** The ID with a number: IDs with different numbers differ. */
  function Id(prefix: string, n: nat): string
  {
    prefix + Padded(n)
  }

  lemma IdsDiffer(prefix: string, m: nat, n: nat)
    requires Id(prefix, m) == Id(prefix, n)
    ensures m == n
  {
    hide Value, Padded;
    assert Id(prefix, m)[|prefix|..] == Padded(m) && Id(prefix, n)[|prefix|..] == Padded(n);
    PaddedValue(m);
    PaddedValue(n);
  }

  /** The IDs from `low` up to `high`. */
  ghost function Range(prefix: string, low: nat, high: nat): set<string>
    requires low <= high
  {
    set n | low <= n < high :: Id(prefix, n)
  }

  lemma {:induction false} RangeSize(prefix: string, low: nat, high: nat)
    requires low <= high
    ensures |Range(prefix, low, high)| == high - low
    decreases high
  {
    hide Id;
    if low == high {
      assert Range(prefix, low, high) == {};
    } else {
      RangeSize(prefix, low, high - 1);
      var last := Id(prefix, high - 1);
      assert Range(prefix, low, high) == Range(prefix, low, high - 1) + {last};
      if last in Range(prefix, low, high - 1) {
        var n :| low <= n < high - 1 && last == Id(prefix, n);
        IdsDiffer(prefix, n, high - 1);
      }
    }
  }

  lemma RangeFits(prefix: string, low: nat, high: nat, ids: set<string>)
    requires low <= high && Range(prefix, low, high) <= ids
    ensures high - low <= |ids|
  {
    RangeSize(prefix, low, high);
    Fits(Range(prefix, low, high), ids);
  }

  lemma {:induction false} Fits(a: set<string>, b: set<string>)
    requires a <= b
    ensures |a| <= |b|
  {
    if a != {} {
      var x :| x in a;
      Fits(a - {x}, b - {x});
    }
  }

  /** The highest number among the IDs of the day; `number` reads what follows the last dash, if it can. */
  method Highest(existing: set<string>, prefix: string, number: string -> Option<int>) returns (highest: nat)
    ensures forall id :: id in existing && prefix <= id && number(id).Some? ==> number(id).value <= highest
    ensures highest == 0
              || exists id :: id in existing && prefix <= id && number(id).Some? && number(id).value == highest
  {
    highest := 0;
    var rest := existing;
    while rest != {}
      invariant rest <= existing
      invariant forall id :: id in existing - rest && prefix <= id && number(id).Some? ==> number(id).value <= highest
      invariant highest == 0
              || exists id :: id in existing && prefix <= id && number(id).Some? && number(id).value == highest
      decreases |rest|
    {
      var id :| id in rest;
      rest := rest - {id};
      if prefix <= id && number(id).Some? && number(id).value > highest {
        highest := number(id).value;
      }
    }
  }

  /** The search for an ID that is not taken. It ends, since the IDs it passes are taken and all differ. */
  method FirstFree(existing: set<string>, prefix: string, from: nat) returns (n: nat)
    ensures from <= n && Id(prefix, n) !in existing && Range(prefix, from, n) <= existing
  {
    hide Id;
    n := from;
    while Id(prefix, n) in existing
      invariant from <= n && Range(prefix, from, n) <= existing
      decreases |existing| - (n - from) + 1
    {
      assert Range(prefix, from, n + 1) == Range(prefix, from, n) + {Id(prefix, n)};
      RangeFits(prefix, from, n + 1, existing);
      n := n + 1;
    }
  }

  /** No two of the IDs are alike, and none is taken. */
  ghost predicate NewIds(ids: seq<string>, taken: set<string>)
  {
    Distinct(ids) && forall i :: 0 <= i < |ids| ==> ids[i] !in taken
  }

  /** `_generate_audit_ids`: as many IDs as asked for, none of them taken and no two alike. */
  method GenerateAuditIds(taken: set<string>, prefix: string, number: string -> Option<int>, count: nat)
    returns (ids: seq<string>)
    ensures |ids| == count && NewIds(ids, taken)
    ensures forall i :: 0 <= i < count ==> prefix <= ids[i]
  {
    hide Id, Range;
    var existing := taken;
    var highest: int := Highest(existing, prefix, number);
    ids := [];
    for offset := 1 to count + 1
      invariant |ids| == offset - 1 && taken <= existing && highest >= 0
      invariant forall i :: 0 <= i < |ids| ==> prefix <= ids[i] && ids[i] !in taken && ids[i] in existing
      invariant forall i, j :: 0 <= i < j < |ids| ==> ids[i] != ids[j]
    {
      var n := FirstFree(existing, prefix, highest + offset);
      highest := n - offset;
      Starts(prefix, n);
      ids := ids + [Id(prefix, n)];
      existing := existing + {Id(prefix, n)};
    }
  }

  lemma Starts(prefix: string, n: nat)
    ensures prefix <= Id(prefix, n)
  {
  }

  lemma {:induction false} DecimalLength(n: nat)
    ensures n < 10 <==> |Decimal(n)| == 1
    ensures 10 <= n < 100 <==> |Decimal(n)| == 2
    ensures 100 <= n < 1000 ==> |Decimal(n)| == 3
  {
    if n >= 10 { DecimalLength(n / 10); }
  }

  /** Up to 999 a number has three digits, and beyond that no zeros in front. */
  lemma PaddedLength(n: nat)
    ensures n < 1000 ==> |Padded(n)| == 3
    ensures n >= 1000 ==> Padded(n) == Decimal(n)
  {
    hide Decimal;
    DecimalLength(n);
  }
}

/** The status dispatcher inside `makeApiRequest`: given the JSONP response's
    status and a table of handlers keyed by strings, choose the handler to
    run. The table is a finite map from key to a handler tag; the result is
    the key chosen, if any. */
module Dispatch {
  import opened Wrappers
  import opened Js

  /** The convenience key matched by any 2xx or 3xx status. */
  const Aggregate: string := "2xx/3xx"

  /** `Math.floor(status / 100)`: Dafny's division by a positive divisor
      already rounds down, also for negative statuses. */
  function StatusClass(status: int): (c: int)
    ensures 100 * c <= status < 100 * c + 100
  {
    status / 100
  }

  /** The property name `callbacks[status]` looks up. */
  function ExactKey(status: int): string {
    IntToString(status)
  }

  /** The property name `callbacks[statusClass + "xx"]` looks up. */
  function ClassKey(status: int): string {
    IntToString(StatusClass(status)) + "xx"
  }

  predicate IsSuccessClass(status: int) {
    StatusClass(status) == 2 || StatusClass(status) == 3
  }

  /** The keys tried, most specific first. */
  function Candidates(status: int): (ks: seq<string>)
    ensures |ks| == if IsSuccessClass(status) then 3 else 2
  {
    [ExactKey(status), ClassKey(status)] + if IsSuccessClass(status) then [Aggregate] else []
  }

  /** The dispatcher: the exact status key, else the class key, else (for a
      2xx or 3xx status only) the aggregate key; `None` when no key is
      present, in which case no handler runs. */
  function Select<H>(callbacks: map<string, H>, status: int): (k: Option<string>)
    ensures k.Some? ==> k.value in callbacks && k.value in Candidates(status)
    ensures k.None? <==> forall i :: 0 <= i < |Candidates(status)| ==> Candidates(status)[i] !in callbacks
  {
    if ExactKey(status) in callbacks then Some(ExactKey(status))
    else if ClassKey(status) in callbacks then Some(ClassKey(status))
    else if IsSuccessClass(status) && Aggregate in callbacks then Some(Aggregate)
    else None
  }

  /** No two candidate keys coincide: an exact key holds only digits and '-',
      a class key ends in "xx", and the aggregate key holds a '/'. */
  lemma CandidatesDistinct(status: int)
    ensures forall i, j :: 0 <= i < j < |Candidates(status)| ==> Candidates(status)[i] != Candidates(status)[j]
  {
    var e, c := ExactKey(status), ClassKey(status);
    assert c[|c| - 1] == 'x' && !IsDigit(c[|c| - 1]);
    assert Aggregate[1] == 'x';
  }

  /** Precedence, stated without the if-chain: the key chosen is the first
      candidate present in the table, and every candidate before it is
      absent. */
  lemma {:induction false} SelectIsFirstPresent<H>(callbacks: map<string, H>, status: int, k: string)
    ensures Select(callbacks, status) == Some(k) <==>
      exists i :: 0 <= i < |Candidates(status)| && Candidates(status)[i] == k && k in callbacks &&
        forall j :: 0 <= j < i ==> Candidates(status)[j] !in callbacks
  {
    var cs := Candidates(status);
    if exists i :: 0 <= i < |cs| && cs[i] == k && k in callbacks && forall j :: 0 <= j < i ==> cs[j] !in callbacks {
      var i :| 0 <= i < |cs| && cs[i] == k && k in callbacks && forall j :: 0 <= j < i ==> cs[j] !in callbacks;
      if i == 1 {
        assert cs[0] !in callbacks;
      } else if i == 2 {
        assert cs[0] !in callbacks && cs[1] !in callbacks;
      }
    }
    if Select(callbacks, status) == Some(k) {
      if k == cs[0] {
        assert 0 < |cs|;
      } else if k == cs[1] {
        assert forall j :: 0 <= j < 1 ==> cs[j] !in callbacks;
      } else {
        assert |cs| == 3 && k == cs[2];
        assert forall j :: 0 <= j < 2 ==> cs[j] !in callbacks;
      }
    }
  }

  /** With only the aggregate key supplied, status 301 selects it. */
  lemma AggregateOnly301<H>(h: H)
    ensures Select(map[Aggregate := h], 301) == Some(Aggregate)
  {
    assert StatusClass(301) == 3;
    assert ExactKey(301) != Aggregate by { assert IsDigit(ExactKey(301)[1]); }
    assert ClassKey(301) == "3xx" by { OneDigitString(3, 3); }
  }

  /** With only the aggregate key supplied, an informational (1xx) status
      selects nothing. */
  lemma AggregateOnlyIgnores1xx<H>(h: H, status: int)
    requires 100 <= status < 200
    ensures Select(map[Aggregate := h], status) == None
  {
    CandidatesDistinct(status);
    assert ExactKey(status) != Aggregate by { assert IsDigit(ExactKey(status)[1]); }
    assert ClassKey(status) == "1xx" by { OneDigitString(1, 1); }
  }

  /** A class key names one class only: `ClassKey(s) == d + "xx"` exactly
      when `floor(s/100) == d`. */
  lemma ClassKeyDigit(status: int, d: nat)
    requires d < 10
    ensures ClassKey(status) == [DigitChar(d)] + "xx" <==> StatusClass(status) == d
  {
    var r := IntToString(StatusClass(status));
    OneDigitString(StatusClass(status), d);
    if ClassKey(status) == [DigitChar(d)] + "xx" {
      assert r == ClassKey(status)[..|r|];
      assert |r| == 1;
    }
  }

  /** A class key ends in 'x' and is never the aggregate key. */
  lemma ClassKeyShape(status: int)
    ensures ClassKey(status)[|ClassKey(status)| - 1] == 'x'
    ensures ClassKey(status) != Aggregate
  {
    var c := ClassKey(status);
    assert c[|c| - 1] == 'x';
    assert Aggregate[1] == 'x';
    assert |c| > 1 ==> IsDigit(c[1]) || |c| == 3;
  }

  /** An exact key is never a class key nor the aggregate key. */
  lemma ExactKeyNotPattern(status: int)
    ensures forall d: nat :: d < 10 ==> ExactKey(status) != [DigitChar(d)] + "xx"
    ensures ExactKey(status) != Aggregate
  {
    var e := ExactKey(status);
    assert |e| > 2 ==> IsDigit(e[1]) && IsDigit(e[2]);
    forall d: nat | d < 10
      ensures e != [DigitChar(d)] + "xx"
    {
      assert ([DigitChar(d)] + "xx")[2] == 'x';
    }
    assert Aggregate[1] == 'x';
  }
}

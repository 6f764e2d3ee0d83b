// Loops of the built-in functions that run on a 32-bit index, and the loop that
// writes output values back.
module Functions {
  import opened Values
  import opened Filling

  // ---------------------------------------------------------------- clear_empty

  lemma {:induction false} NonEmptyAppend(h: Host, a: seq<Data>, b: seq<Data>)
    ensures NonEmpty(h, a + b) == NonEmpty(h, a) + NonEmpty(h, b)
  {
    if a == [] {
      assert a + b == b;
    } else {
      assert (a + b)[0] == a[0] && (a + b)[1..] == a[1..] + b;
      NonEmptyAppend(h, a[1..], b);
    }
  }

  // what NonEmpty means: a subsequence in the original order that keeps exactly the
  // elements with text
  lemma {:induction false} NonEmptyKeeps(h: Host, a: seq<Data>, d: Data)
    ensures multiset(NonEmpty(h, a))[d] == if h.ToString(d) == "" then 0 else multiset(a)[d]
  {
    if a != [] {
      NonEmptyKeeps(h, a[1..], d);
      assert multiset(a) == multiset{a[0]} + multiset(a[1..]) by { assert a == [a[0]] + a[1..]; }
      assert h.ToString(a[0]) != "" ==>
        multiset(NonEmpty(h, a)) == multiset{a[0]} + multiset(NonEmpty(h, a[1..]));
    }
  }

  lemma {:induction false} NonEmptyInOrder(h: Host, a: seq<Data>, i: nat, j: nat) returns (p: nat, q: nat)
    requires i < j < |NonEmpty(h, a)|
    ensures p < q < |a| && a[p] == NonEmpty(h, a)[i] && a[q] == NonEmpty(h, a)[j]
  {
    var rest, tail := NonEmpty(h, a[1..]), a[1..];
    if h.ToString(a[0]) == "" {
      p, q := NonEmptyInOrder(h, tail, i, j);
      p, q := p + 1, q + 1;
    } else if i == 0 {
      NonEmptyMember(h, tail, rest[j - 1]);
      q :| 0 <= q < |tail| && tail[q] == rest[j - 1];
      p, q := 0, q + 1;
    } else {
      p, q := NonEmptyInOrder(h, tail, i - 1, j - 1);
      p, q := p + 1, q + 1;
    }
  }

  lemma NonEmptyMember(h: Host, a: seq<Data>, d: Data)
    requires d in NonEmpty(h, a)
    ensures d in a
  {
    NonEmptyKeeps(h, a, d);
    assert d in multiset(NonEmpty(h, a));
    assert d in multiset(a);
  }

  // one iteration of the loop body followed by the loop increment, both on uint32_t
  function ClearStep(h: Host, a: seq<Data>, i: nat): (r: (seq<Data>, nat))
    requires i < |a| && i < U32
    ensures r.1 < U32
  {
    if h.ToString(a[i]) == "" then (a[..i] + a[i + 1..], ((i - 1) % U32 + 1) % U32)
    else (a, (i + 1) % U32)
  }

  lemma ClearStepKeeps(h: Host, a: seq<Data>, i: nat)
    requires i < |a| && i < U32
    ensures NonEmpty(h, ClearStep(h, a, i).0) == NonEmpty(h, a)
  {
    if h.ToString(a[i]) == "" { RemovalKeeps(h, a, i); }
  }

  lemma NonEmptyOne(h: Host, d: Data)
    ensures NonEmpty(h, [d]) == if h.ToString(d) == "" then [] else [d]
  {}

  lemma RemovalKeeps(h: Host, a: seq<Data>, i: nat)
    requires i < |a| && h.ToString(a[i]) == ""
    ensures NonEmpty(h, a[..i] + a[i + 1..]) == NonEmpty(h, a)
  {
    hide NonEmpty;
    assert a == a[..i] + [a[i]] + a[i + 1..];
    NonEmptyOne(h, a[i]);
    NonEmptyAppend(h, a[..i] + [a[i]], a[i + 1..]);
    NonEmptyAppend(h, a[..i], [a[i]]);
    NonEmptyAppend(h, a[..i], a[i + 1..]);
  }

  predicate TextBefore(h: Host, a: seq<Data>, i: nat)
    requires i <= |a|
  {
    forall j :: 0 <= j < i ==> h.ToString(a[j]) != ""
  }

  lemma {:induction false} TextCounts(h: Host, a: seq<Data>, i: nat)
    requires i <= |a| && TextBefore(h, a, i)
    ensures i <= |NonEmpty(h, a)|
    ensures i == |a| ==> NonEmpty(h, a) == a
  {
    if i > 0 { TextCounts(h, a[1..], i - 1); }
  }

  // one iteration keeps the loop invariant and comes closer to the end
  lemma ClearAdvances(h: Host, a: seq<Data>, i: nat)
    requires i < |a| && TextBefore(h, a, i) && |NonEmpty(h, a)| < U32
    ensures i < U32
    ensures var s := ClearStep(h, a, i);
      s.1 <= |s.0| && TextBefore(h, s.0, s.1) && |s.0| - s.1 < |a| - i
  {
    hide NonEmpty;
    TextCounts(h, a, i);
    if h.ToString(a[i]) == "" {
      WrapBack(i);
    } else {
      TextCounts(h, a, i + 1);
    }
  }

  lemma WrapBack(i: nat)
    requires i < U32
    ensures ((i - 1) % U32 + 1) % U32 == i
  {
    if i == 0 { assert (-1) % U32 == U32 - 1; }
  }

  /** clearEmpty on an array whose loop ends. Removal at index 0 wraps the index to
      2^32 - 1 before the increment wraps it back. */
  method ClearEmpty(h: Host, item: seq<Data>) returns (result: seq<Data>)
    requires |NonEmpty(h, item)| < U32
    ensures result == NonEmpty(h, item)
  {
    result := item;
    var i := 0;
    while i < |result|
      invariant 0 <= i <= |result| && TextBefore(h, result, i)
      invariant NonEmpty(h, result) == NonEmpty(h, item)
      decreases |result| - i
    {
      ClearAdvances(h, result, i);
      ClearStepKeeps(h, result, i);
      if h.ToString(result[i]) == "" {
        result := result[..i] + result[i + 1..];
        i := (i - 1) % U32;
      }
      i := (i + 1) % U32;
    }
    TextCounts(h, result, i);
  }

  // the loop state after n iterations, None once the guard has failed
  function ClearRun(h: Host, a: seq<Data>, i: nat, n: nat): Option<(seq<Data>, nat)>
    requires i < U32
    decreases n
  {
    if i >= |a| then None
    else if n == 0 then Some((a, i))
    else var s := ClearStep(h, a, i); ClearRun(h, s.0, s.1, n - 1)
  }

  lemma {:induction false} ClearRunsOn(h: Host, a: seq<Data>, i: nat, n: nat)
    requires i < U32 <= |NonEmpty(h, a)|
    ensures ClearRun(h, a, i, n).Some?
    decreases n
  {
    if n > 0 {
      var s := ClearStep(h, a, i);
      ClearStepKeeps(h, a, i);
      ClearRunsOn(h, s.0, s.1, n - 1);
    }
  }

  lemma {:induction false} ClearStops(h: Host, a: seq<Data>, i: nat) returns (n: nat)
    requires i <= |a| && TextBefore(h, a, i) && |NonEmpty(h, a)| < U32
    ensures i < U32 && ClearRun(h, a, i, n).None?
    decreases |a| - i
  {
    TextCounts(h, a, i);
    n := 0;
    if i < |a| {
      ClearAdvances(h, a, i);
      ClearStepKeeps(h, a, i);
      var s := ClearStep(h, a, i);
      n := ClearStops(h, s.0, s.1);
      n := n + 1;
    }
  }

  /** The loop ends exactly when fewer than 2^32 elements have text. */
  lemma ClearEmptyEndsExactly(h: Host, a: seq<Data>)
    ensures (exists n :: ClearRun(h, a, 0, n).None?) <==> |NonEmpty(h, a)| < U32
  {
    if |NonEmpty(h, a)| < U32 {
      var n := ClearStops(h, a, 0);
    } else {
      forall n ensures ClearRun(h, a, 0, n).Some? { ClearRunsOn(h, a, 0, n); }
    }
  }

  // ---------------------------------------------------------------- contains

  /** The array search of containsValue where it returns. */
  method ContainsInArray(h: Host, a: seq<Data>, key: Data) returns (found: bool)
    requires key.IsValue() && ContainsValue(h, Array(a), key).Some?
    ensures Some(Bool(found)) == ContainsValue(h, Array(a), key)
    ensures found ==> Matches(h, a, key)
    ensures !found ==> !Matches(h, a, key)
  {
    var i := 0;
    ghost var seen := if |a| < U32 then a else a[..U32];
    while i < |a|
      invariant 0 <= i <= |seen|
      invariant forall j :: 0 <= j < i ==> h.ToString(a[j]) != h.ToString(key)
      decreases |a| - i
    {
      if h.ToString(a[i]) == h.ToString(key) {
        assert seen[i] == a[i];
        return true;
      }
      i := i + 1;
      // an index of 2^32 would wrap to 0: not reached, an earlier element matches
      assert i < U32;
    }
    found := false;
  }

  // the 32-bit index of the search after n iterations, None when it has returned before
  function ContainsRun(h: Host, a: seq<Data>, key: Data, i: nat, n: nat): Option<nat>
    decreases n
  {
    if i >= |a| || h.ToString(a[i]) == h.ToString(key) then None
    else if n == 0 then Some(i)
    else ContainsRun(h, a, key, (i + 1) % U32, n - 1)
  }

  predicate MatchBefore(h: Host, a: seq<Data>, key: Data, end: nat) {
    exists i :: 0 <= i < |a| && i < end && h.ToString(a[i]) == h.ToString(key)
  }

  lemma {:induction false} ContainsRunsOn(h: Host, a: seq<Data>, key: Data, i: nat, n: nat)
    requires i < U32 <= |a| && !MatchBefore(h, a, key, U32)
    ensures ContainsRun(h, a, key, i, n).Some?
    decreases n
  {
    if n > 0 { ContainsRunsOn(h, a, key, (i + 1) % U32, n - 1); }
  }

  lemma {:induction false} ContainsStops(h: Host, a: seq<Data>, key: Data, i: nat, end: nat) returns (n: nat)
    requires i <= end < U32
    requires end >= |a| || h.ToString(a[end]) == h.ToString(key)
    ensures ContainsRun(h, a, key, i, n).None?
    decreases end - i
  {
    n := 0;
    if i < end {
      n := ContainsStops(h, a, key, i + 1, end);
      n := n + 1;
    }
  }

  /** The search ends exactly when one of the first 2^32 elements matches or there are fewer,
      and that is when containsValue has a result. */
  lemma ContainsEndsExactly(h: Host, a: seq<Data>, key: Data)
    requires key.IsValue()
    ensures (exists n :: ContainsRun(h, a, key, 0, n).None?) <==> |a| < U32 || MatchBefore(h, a, key, U32)
    ensures (exists n :: ContainsRun(h, a, key, 0, n).None?) <==> ContainsValue(h, Array(a), key).Some?
  {
    if |a| < U32 {
      var n := ContainsStops(h, a, key, 0, |a|);
    } else if MatchBefore(h, a, key, U32) {
      var i :| 0 <= i < |a| && i < U32 && h.ToString(a[i]) == h.ToString(key);
      var n := ContainsStops(h, a, key, 0, i);
      assert a[..U32][i] == a[i];
    } else {
      forall n ensures ContainsRun(h, a, key, 0, n).Some? { ContainsRunsOn(h, a, key, 0, n); }
    }
  }

  // ---------------------------------------------------------------- output values

  predicate OutputPresent(h: Host, v: ValueItem, output: Env) {
    v.kind.Output? ==> h.ToString(v.item) in output
  }

  predicate OutputReached(h: Host, values: map<string, ValueItem>, output: Env, k: string) {
    forall other :: other in values && KeyLe(other, k) ==> OutputPresent(h, values[other], output)
  }

  predicate OutputComplete(h: Host, values: map<string, ValueItem>, output: Env) {
    forall k :: k in values ==> OutputPresent(h, values[k], output)
  }

  // an output entry that was filled: a plain value of output type
  function OutputItem(d: Data): ValueItem { ValueItem(d, Output, false, UndefinedType, []) }

  /** Output entries are replaced in key order up to the first one without a source. */
  function FillOutput(h: Host, values: map<string, ValueItem>, output: Env): (r: map<string, ValueItem>)
    ensures r.Keys == values.Keys
  {
    map k | k in values ::
      if values[k].kind.Output? && OutputReached(h, values, output, k)
      then (KeyLeTotal(k, k); OutputItem(output[h.ToString(values[k].item)]))
      else values[k]
  }

  // what the loop has done when the keys in todo are left
  ghost predicate OutputWritten(h: Host, values: map<string, ValueItem>, output: Env, todo: set<string>,
                                result: map<string, ValueItem>)
  {
    todo <= values.Keys == result.Keys &&
    (forall k :: k in todo ==> result[k] == values[k]) &&
    forall k :: k in values && k !in todo ==>
      OutputPresent(h, values[k], output) &&
      result[k] == if values[k].kind.Output? then OutputItem(output[h.ToString(values[k].item)]) else values[k]
  }

  ghost predicate InKeyOrder(keys: set<string>, todo: set<string>) {
    forall done, k :: done in keys && done !in todo && k in todo ==> KeyLe(done, k)
  }

  method FillOutputValueItemMap(h: Host, values: map<string, ValueItem>, output: Env)
    returns (ok: bool, result: map<string, ValueItem>)
    ensures ok <==> OutputComplete(h, values, output)
    ensures result == FillOutput(h, values, output)
  {
    result := values;
    var todo := values.Keys;
    while todo != {}
      invariant OutputWritten(h, values, output, todo, result) && InKeyOrder(values.Keys, todo)
      decreases todo
    {
      LeastKeyExists(todo);
      var k :| IsLeastKey(k, todo);
      if values[k].kind.Output? {
        if h.ToString(values[k].item) !in output {
          OutputStopped(h, values, output, todo, result, k);
          return false, result;
        }
        result := result[k := OutputItem(output[h.ToString(values[k].item)])];
      }
      todo := todo - {k};
    }
    ok := true;
  }

  lemma OutputStopped(h: Host, values: map<string, ValueItem>, output: Env, todo: set<string>,
                      result: map<string, ValueItem>, k: string)
    requires OutputWritten(h, values, output, todo, result) && InKeyOrder(values.Keys, todo)
    requires IsLeastKey(k, todo) && !OutputPresent(h, values[k], output)
    ensures result == FillOutput(h, values, output)
  {
    forall other | other in values ensures result[other] == FillOutput(h, values, output)[other] {
      if other in todo {
        assert !OutputReached(h, values, output, other);
      } else {
        OutputReachedBefore(h, values, output, todo, result, other);
      }
    }
  }

  lemma OutputReachedBefore(h: Host, values: map<string, ValueItem>, output: Env, todo: set<string>,
                            result: map<string, ValueItem>, done: string)
    requires OutputWritten(h, values, output, todo, result) && InKeyOrder(values.Keys, todo)
    requires done in values && done !in todo
    ensures OutputReached(h, values, output, done)
  {
    forall a | a in values && KeyLe(a, done) ensures OutputPresent(h, values[a], output) {
      if a in todo { KeyLeTotal(a, done); }
    }
  }
}

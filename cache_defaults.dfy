/**
 * The default operations of the abstract `Cache` that are built on its four
 * primitives: the value `increase` writes back and the size sum behind
 * `memory_size`. Each backend class runs them over its own `get`/`set`.
 */
module CacheDefaults {
  import opened Outcomes
  import opened Decimal

  /**
   * The text `increase(key, amount)` writes back, given what `get(key)`
   * returned: `str(amount)` for an absent key, `str(int(v) + amount)` for a
   * digit string `v`, and a ValueError for anything else.
   */
  function IncreasedValue(current: Option<string>, amount: int): Result<string>
  {
    match current
    case None => Success(IntToString(amount))
    case Some(v) =>
      if IsDigitString(v) then Success(IntToString(ValueOf(v) + amount)) else Failure(NotAnInteger)
  }

  /** `_calculate_size`: the total length of the strings among `items`; absent ones add nothing. */
  function CalculateSize(items: seq<Option<string>>): nat
  {
    if items == [] then 0
    else (if items[0].Some? then |items[0].value| else 0) + CalculateSize(items[1..])
  }

  /** The keys of `memory_size` as the items `_calculate_size` sums. */
  function AsItems(keys: seq<string>): (items: seq<Option<string>>)
    ensures |items| == |keys|
    ensures forall i | 0 <= i < |keys| :: items[i] == Some(keys[i])
  {
    seq(|keys|, i requires 0 <= i < |keys| => Some(keys[i]))
  }

  /** Total length of a list of strings. */
  function TotalLength(keys: seq<string>): nat
  {
    if keys == [] then 0 else |keys[0]| + TotalLength(keys[1..])
  }

  /** An absent key adds `amount` itself: reading the written text back gives `amount`. */
  lemma IncreaseAbsent(amount: int)
    ensures IncreasedValue(None, amount).Success?
    ensures ParseInt(IncreasedValue(None, amount).value) == Some(amount)
  {
    IntRoundTrip(amount);
  }

  /** A stored digit string `v` becomes the text of `int(v) + amount`. */
  lemma IncreaseDigits(v: string, amount: int)
    requires IsDigitString(v)
    ensures IncreasedValue(Some(v), amount).Success?
    ensures ParseInt(IncreasedValue(Some(v), amount).value) == Some(ParseInt(v).value + amount)
  {
    IntRoundTrip(ValueOf(v) + amount);
  }

  /** Exactly the digit strings and absence can be increased; "" and "-3" cannot. */
  lemma IncreaseFailsExactly(current: Option<string>, amount: int)
    ensures IncreasedValue(current, amount).Failure? <==> current.Some? && !IsDigitString(current.value)
    ensures IncreasedValue(Some(""), amount) == Failure(NotAnInteger)
    ensures IncreasedValue(Some("-3"), amount) == Failure(NotAnInteger)
  {
    assert !IsDigit('-');
  }

  /** Increasing a natural count by a natural amount keeps it a digit string. */
  lemma IncreaseKeepsCounting(current: Option<string>, amount: nat)
    requires current.None? || IsDigitString(current.value)
    ensures IncreasedValue(current, amount).Success?
    ensures IsDigitString(IncreasedValue(current, amount).value)
  {
  }

  /** The size of two lists of items is the sum of their sizes. */
  lemma {:induction false} CalculateSizeAppend(a: seq<Option<string>>, b: seq<Option<string>>)
    ensures CalculateSize(a + b) == CalculateSize(a) + CalculateSize(b)
    decreases |a|
  {
    if a == [] {
      assert a + b == b;
    } else {
      assert (a + b)[1..] == a[1..] + b;
      CalculateSizeAppend(a[1..], b);
    }
  }

  /** Keys are all present, so their size is their total length. */
  lemma {:induction false} KeysSize(keys: seq<string>)
    ensures CalculateSize(AsItems(keys)) == TotalLength(keys)
    decreases |keys|
  {
    if keys != [] {
      assert AsItems(keys)[1..] == AsItems(keys[1..]);
      KeysSize(keys[1..]);
    }
  }

  /** Absent values add 0: only the present ones count. */
  lemma {:induction false} CalculateSizeSkipsAbsent(items: seq<Option<string>>)
    ensures CalculateSize(items + [None]) == CalculateSize(items)
    ensures CalculateSize([None] + items) == CalculateSize(items)
  {
    CalculateSizeAppend(items, [None]);
    CalculateSizeAppend([None], items);
  }
}

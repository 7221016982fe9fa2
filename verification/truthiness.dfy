/**
 The merge rule of every partial update: a supplied value overwrites the stored
 one only when it is truthy in Python's sense. For text, an omitted value (None)
 and the empty string are both falsy; for numbers (quantities and decimal
 amounts), None and zero are falsy while every other value, negative ones
 included, is truthy.
 */
module Truthiness {
  import opened Wrappers

  /** `if value:` for an optional string. */
  predicate TruthyText(v: Option<string>) {
    v.Some? && v.value != ""
  }

  /** `if value:` for an optional integer or decimal amount. */
  predicate TruthyNumber(v: Option<int>) {
    v.Some? && v.value != 0
  }

  /** The stored text after a merge: either the old value kept, or a non-empty supplied value. */
  function MergeText(current: string, supplied: Option<string>): (r: string)
    ensures r == current || (supplied == Some(r) && r != "")
    ensures r != current ==> TruthyText(supplied)
    ensures TruthyText(supplied) ==> r == supplied.value
  {
    if TruthyText(supplied) then supplied.value else current
  }

  /** Merge into a nullable text column: a falsy supply never turns a value into null or "". */
  function MergeNullableText(current: Option<string>, supplied: Option<string>): (r: Option<string>)
    ensures r == current || (r == supplied && TruthyText(r))
    ensures r != current ==> TruthyText(supplied)
    ensures TruthyText(supplied) ==> r == supplied
  {
    if TruthyText(supplied) then supplied else current
  }

  /** The stored number after a merge: either the old value kept, or a non-zero supplied value. */
  function MergeNumber(current: int, supplied: Option<int>): (r: int)
    ensures r == current || (supplied == Some(r) && r != 0)
    ensures r != current ==> TruthyNumber(supplied)
    ensures TruthyNumber(supplied) ==> r == supplied.value
  {
    if TruthyNumber(supplied) then supplied.value else current
  }
}

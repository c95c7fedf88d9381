/** The one-hot encoder for digit labels. A JavaScript number is a `real`
    here. */
module Utils {

  /** `makeOutputNumber(num)`: ten entries, pushed in index order, entry i
      being 1 exactly when i equals `num`. A digit label 0..9 gives a single
      1 at its own index; any other number gives ten zeros. */
  method MakeOutputNumber(num: real) returns (arr: seq<real>)
    ensures |arr| == 10
    ensures forall i :: 0 <= i < 10 ==> (arr[i] == 1.0 <==> num == i as real)
    ensures forall i :: 0 <= i < 10 ==> arr[i] == 0.0 || arr[i] == 1.0
    ensures num.Floor as real == num && 0 <= num.Floor < 10 ==>
      arr[num.Floor] == 1.0 && forall i :: 0 <= i < 10 && i != num.Floor ==> arr[i] == 0.0
    ensures (num.Floor as real != num || num < 0.0 || num >= 10.0) ==>
      forall i :: 0 <= i < 10 ==> arr[i] == 0.0
  {
    arr := [];
    for i := 0 to 10
      invariant |arr| == i
      invariant forall j :: 0 <= j < i ==> arr[j] == (if num == j as real then 1.0 else 0.0)
    {
      arr := arr + [if i as real == num then 1.0 else 0.0];
    }
  }
}

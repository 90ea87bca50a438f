/** An optional value: a form field, JSON key or CSV cell that may be absent. */
module Wrappers {
  datatype Option<+T> = None | Some(value: T)
}

/** Python's slice `s[:n]`. */
module Seqs {
  function Take<T>(s: seq<T>, n: nat): (t: seq<T>)
    ensures |t| <= n && |t| <= |s|
    ensures |s| >= n ==> |t| == n
    ensures |s| <= n ==> t == s
    ensures t == s[..|t|]
  {
    if |s| <= n then s else s[..n]
  }
}

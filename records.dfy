/**
 * The probe's statistics records. Both the probe and the reporter pass
 * records around as maps from key to integer counter (a Go
 * `map[string]int64`); which keys are present tells a request record from a
 * session record.
 */
module Records {

  /**
   * The keys the program ever writes, one constructor per string constant
   * ("isRequest", "statusCode", ..., "prevClientClose").
   */
  datatype Key =
    // tags
    | IsRequest | IsSession | Lifetime
    // request statistics
    | StatusCode | TimeNano | Error | ContentLength | Compression
    | TCPreuse | TLSstart | TLSsuccess | DNSstart | DNSsuccess
    // session rollups and carried values
    | ReqFastest | ReqSlowest | ReqSum | NumRequests | CompRequests
    | ClientClose | PrevError | PrevClientClose

  type Record = map<Key, int>

  /** Go's map index: a missing key reads as 0. */
  function Get(m: Record, k: Key): int
  {
    if k in m then m[k] else 0
  }

  /** The values of one key across a sequence of records, a missing key read as 0. */
  function Column(rs: seq<Record>, k: Key): (col: seq<int>)
    ensures |col| == |rs|
  {
    if rs == [] then [] else Column(rs[..|rs| - 1], k) + [Get(rs[|rs| - 1], k)]
  }

  /** Appending a record appends its value to every column. */
  lemma ColumnSnoc(rs: seq<Record>, r: Record, k: Key)
    ensures Column(rs + [r], k) == Column(rs, k) + [Get(r, k)]
  {
    assert (rs + [r])[..|rs|] == rs;
  }

  /** The column holds, at each position, that record's value of the key. */
  lemma {:induction false} ColumnAt(rs: seq<Record>, k: Key)
    ensures forall i :: 0 <= i < |rs| ==> Column(rs, k)[i] == Get(rs[i], k)
  {
    if rs != [] {
      var init := rs[..|rs| - 1];
      ColumnAt(init, k);
      assert forall i :: 0 <= i < |init| ==> rs[i] == init[i];
    }
  }
}

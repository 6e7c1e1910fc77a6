/** Conventions of the JavaScript runtime and of the hosted database client
    that every page and edge function relies on. */
module Js {

  datatype Option<+T> = None | Some(value: T) {
    /** `x ?? default` / `x || default` for a value that is not a string. */
    function GetOr(default: T): T {
      if Some? then value else default
    }
  }

  datatype Result<+T, +E> = Ok(value: T) | Err(error: E)

  /** A nullable string is truthy when it is present and not empty. */
  predicate Truthy(s: Option<string>) {
    s.Some? && s.value != ""
  }

  /** `s || fallback` on a nullable string. */
  function OrElse(s: Option<string>, fallback: string): string {
    if Truthy(s) then s.value else fallback
  }

  /** `Map.prototype.get`: a missing key gives `undefined`. */
  function Get<K, V>(m: map<K, V>, k: K): Option<V> {
    if k in m then Some(m[k]) else None
  }

  function Max(a: int, b: int): int { if a < b then b else a }

  function Min(a: int, b: int): int { if a < b then a else b }

  /** The error object of the database client; `code` is PostgREST's code. */
  datatype DbError = DbError(code: string, message: string)

  /** PostgREST's code for "`.single()` found no row". */
  const NoRowsCode := "PGRST116"

  /** `{ data, error }` as the database client returns it. */
  datatype Reply<T> = Reply(data: Option<T>, error: Option<DbError>)

  /** The check every single-row lookup makes: an error other than "no rows" is thrown. */
  predicate FailsOtherThanNoRows<T>(r: Reply<T>) {
    r.error.Some? && r.error.value.code != NoRowsCode
  }

  // Decimal rendering of integers, as template strings show them.

  function Digit(d: nat): (c: char)
    requires d < 10
    ensures '0' <= c <= '9' && c as int - '0' as int == d
  {
    ('0' as int + d) as char
  }

  predicate IsDecimal(s: string) {
    forall i :: 0 <= i < |s| ==> '0' <= s[i] <= '9'
  }

  function NatToDecimal(n: nat): (s: string)
    ensures |s| >= 1 && IsDecimal(s)
  {
    if n < 10 then [Digit(n)] else NatToDecimal(n / 10) + [Digit(n % 10)]
  }

  /** The value a string of decimal digits denotes. */
  function DecimalValue(s: string): nat
    requires IsDecimal(s)
  {
    if s == [] then 0
    else DecimalValue(s[..|s| - 1]) * 10 + (s[|s| - 1] as int - '0' as int)
  }

  /** Rendering a count in decimal loses nothing: reading the digits back gives the count. */
  lemma {:induction false} DecimalRoundTrip(n: nat)
    ensures DecimalValue(NatToDecimal(n)) == n
  {
    if n >= 10 {
      var s := NatToDecimal(n);
      assert s[..|s| - 1] == NatToDecimal(n / 10);
      DecimalRoundTrip(n / 10);
    }
  }

  /** `${i}` for an integer. */
  function IntToString(i: int): string {
    if i < 0 then "-" + NatToDecimal(-i) else NatToDecimal(i)
  }
}

/** Maps filled by `forEach(row => map.set(key, value))`: a later row
    overwrites an earlier one with the same key. */
module Lookup {
  import opened Js

  function LastWins<K, V>(entries: seq<(K, V)>): map<K, V>
    decreases |entries|
  {
    if entries == [] then map[]
    else LastWins(entries[..|entries| - 1])[entries[|entries| - 1].0 := entries[|entries| - 1].1]
  }

  /** A key is in the map exactly when some entry carries it. */
  lemma {:induction false} LastWinsDomain<K, V>(entries: seq<(K, V)>, k: K)
    ensures k in LastWins(entries) <==> exists i :: 0 <= i < |entries| && entries[i].0 == k
    decreases |entries|
  {
    if entries != [] {
      var init := entries[..|entries| - 1];
      LastWinsDomain(init, k);
      if k in LastWins(init) {
        var i :| 0 <= i < |init| && init[i].0 == k;
        assert entries[i].0 == k;
      }
      if exists i :: 0 <= i < |entries| && entries[i].0 == k {
        var i :| 0 <= i < |entries| && entries[i].0 == k;
        if i < |init| { assert init[i].0 == k; }
      }
    }
  }

  /** The value under a key is that of the last entry carrying it. */
  lemma {:induction false} LastWinsValue<K, V>(entries: seq<(K, V)>, i: nat)
    requires i < |entries|
    requires forall j :: i < j < |entries| ==> entries[j].0 != entries[i].0
    ensures entries[i].0 in LastWins(entries) && LastWins(entries)[entries[i].0] == entries[i].1
    decreases |entries|
  {
    if i < |entries| - 1 {
      var init := entries[..|entries| - 1];
      assert init[i] == entries[i];
      LastWinsValue(init, i);
    }
  }

  /** Map.get on the filled map: the last entry's value, or undefined when no entry has the key. */
  lemma GetLastWins<K, V>(entries: seq<(K, V)>, k: K)
    ensures Get(LastWins(entries), k).None? <==> forall i :: 0 <= i < |entries| ==> entries[i].0 != k
    ensures forall i :: 0 <= i < |entries| && entries[i].0 == k
              && (forall j :: i < j < |entries| ==> entries[j].0 != k)
              ==> Get(LastWins(entries), k) == Some(entries[i].1)
  {
    LastWinsDomain(entries, k);
    forall i | 0 <= i < |entries| && entries[i].0 == k && (forall j :: i < j < |entries| ==> entries[j].0 != k)
      ensures Get(LastWins(entries), k) == Some(entries[i].1)
    {
      LastWinsValue(entries, i);
    }
  }
}

/** What an edge function answers: a status code and a JSON body with either a
    `message` or an `error` field. */
module Http {
  datatype Body = MessageBody(message: string) | ErrorBody(error: string)

  datatype Response = Response(status: int, body: Body)

  const StatusOk := 200
  const StatusBadRequest := 400
  const StatusServerError := 500
}

/** The credential store of `OtpMain`: a map from a secret string to a record
    holding the OTP URI and a description, addressed by 1-based indices that
    are the ranks of the keys in sorted order and are recomputed on every call. */
module Store {
  import opened Wrappers
  import opened Order

  /** The stored value `{otpUri, desc}`. `desc` is absent when the add command
      had no third field (`arr[2]` is `undefined`, which `JSON.stringify` drops). */
  datatype Record = Record(otpUri: string, desc: Option<string>)

  /** What `OtpAuth.URI.parse` yields that the store uses. */
  datatype ParsedUri = ParsedUri(secret: string, issuer: string, accountLabel: string)

  /** The calls into `otpauth` and `otplib`, which are not part of this model.
      A `None` stands for the call throwing. */
  datatype Library = Library(
    /** the URI of a TOTP with default parameters built from a secret */
    totpUri: string -> Option<string>,
    /** URI parsing, with the secret given in Base32 */
    parse: string -> Option<ParsedUri>,
    /** the authenticator passcode of a Base32 secret at a clock reading */
    generate: (string, int) -> string)

  datatype Error = InvalidSecret | MalformedUri

  /** One line of the listing: index, current passcode, description. */
  datatype Row = Row(idx: nat, passcode: string, desc: Option<string>)

  /** What `showNth` displays: index, description, URI and Base32 secret. */
  datatype Detail = Detail(idx: int, desc: Option<string>, otpUri: string, secret: string)

  /** The key at 1-based index `nth`, if there is one. `nth` is `None` when
      `Number(...)` does not yield an integer. */
  function NthKey(keys: seq<string>, nth: Option<int>): Option<string>
  {
    if nth.Some? && 1 <= nth.value <= |keys| then Some(keys[nth.value - 1]) else None
  }

  /** The lookup as `deleteNth` and `showNth` write it: the key found must also
      pass JavaScript's truthiness test, which the empty string fails. */
  function NthKeyAsWritten(keys: seq<string>, nth: Option<int>): Option<string>
  {
    if nth.Some? && 1 <= nth.value <= |keys| && keys[nth.value - 1] != "" then
      Some(keys[nth.value - 1])
    else
      None
  }

  /** Every stored key is reached by exactly one index, its rank. */
  lemma {:induction false} NthKeyAddressesEveryKey(s: set<string>, k: string)
    requires k in s
    ensures exists n :: NthKey(SortedKeys(s), Some(n)) == Some(k)
    ensures forall n, n' :: NthKey(SortedKeys(s), Some(n)) == Some(k) == NthKey(SortedKeys(s), Some(n')) ==> n == n'
  {
    var r := SortedKeys(s);
    var i :| 0 <= i < |r| && r[i] == k;
    assert NthKey(r, Some(i + 1)) == Some(k);
    forall n, n' | NthKey(r, Some(n)) == Some(k) == NthKey(r, Some(n'))
      ensures n == n'
    {
      AscendingInjective(r, n - 1, n' - 1);
    }
  }

  /** As written, a store holding the empty-string key can neither show nor
      delete it: it ranks first, yet no index yields it. */
  lemma {:induction false} EmptyKeyUnaddressable(s: set<string>, nth: Option<int>)
    requires "" in s
    ensures NthKeyAsWritten(SortedKeys(s), nth) != Some("")
    ensures NthKeyAsWritten(SortedKeys(s), Some(1)) == None
    ensures NthKey(SortedKeys(s), Some(1)) == Some("")
  {
    EmptyKeyFirst(s);
  }

  /** The two readings agree on every key but the empty string. */
  lemma {:induction false} NthKeyAsWrittenAgrees(keys: seq<string>, nth: Option<int>)
    ensures NthKeyAsWritten(keys, nth) == (if NthKey(keys, nth) == Some("") then None else NthKey(keys, nth))
  {
  }

  /** Deleting index `n` shifts every later entry down by one index and leaves
      the earlier ones where they were. */
  lemma {:induction false} DeleteShiftsIndices(s: set<string>, n: int, j: int)
    requires 1 <= n <= |s| && 1 <= j < |s|
    ensures var k := SortedKeys(s)[n - 1];
      SortedKeys(s - {k})[j - 1] == (if j < n then SortedKeys(s)[j - 1] else SortedKeys(s)[j])
  {
    var r := SortedKeys(s);
    var d := SortedKeys(s - {r[n - 1]});
    SortedKeysRemove(s, n - 1);
    CutIndex(r, d, n, j);
  }

  lemma {:induction false} CutIndex(r: seq<string>, d: seq<string>, n: int, j: int)
    requires 1 <= n <= |r| && 1 <= j < |r|
    requires d == r[..n - 1] + r[n..]
    ensures d[j - 1] == if j < n then r[j - 1] else r[j]
  {
  }

  class OtpMain {
    const lib: Library
    var db: map<string, Record>

    /** Opens the store with the entries already persisted. */
    constructor (lib: Library, stored: map<string, Record>)
      ensures this.lib == lib && db == stored
    {
      this.lib := lib;
      db := stored;
    }

    /** `__keys()`: every key of the store once, in ascending order. */
    function Keys(): (r: seq<string>)
      reads this
      ensures |r| == |db|
      ensures forall k :: k in r <==> k in db
      ensures StrictlyAscending(r)
    {
      assert |db| == |db.Keys|;
      SortedKeys(db.Keys)
    }

    /** `addBySecret(secret, desc)`: upserts `secret` with the URI of a default
        TOTP for it; when the TOTP constructor throws, nothing is stored. */
    method AddBySecret(secret: string, desc: Option<string>) returns (r: Result<Record, Error>)
      modifies this
      // The frame clause and the key count follow from the new map; they are
      // stated for the reader.
      ensures lib.totpUri(secret).None? ==> r == Err(InvalidSecret) && db == old(db)
      ensures lib.totpUri(secret).Some? ==>
        r == Ok(Record(lib.totpUri(secret).value, desc)) && db == old(db)[secret := r.value]
      ensures forall k :: k != secret ==> (k in db <==> k in old(db)) && (k in db ==> db[k] == old(db)[k])
      ensures |Keys()| == |old(Keys())| + (if r.Ok? && secret !in old(db) then 1 else 0)
    {
      var uri := lib.totpUri(secret);
      if uri.None? {
        return Err(InvalidSecret);
      }
      var rec := Record(uri.value, desc);
      SortedKeysInsert(db.Keys, secret);
      assert db[secret := rec].Keys == db.Keys + {secret};
      db := db[secret := rec];
      r := Ok(rec);
    }

    /** `addByOtpUri(otpUri)`: upserts the parsed secret with the input text
        verbatim and the description `issuer + " " + label`; when parsing
        throws, nothing is stored. */
    method AddByOtpUri(otpUri: string) returns (r: Result<Record, Error>)
      modifies this
      // As for `AddBySecret`, the frame clause and the key count are stated for
      // the reader.
      ensures lib.parse(otpUri).None? ==> r == Err(MalformedUri) && db == old(db)
      ensures lib.parse(otpUri).Some? ==>
        var p := lib.parse(otpUri).value;
        r == Ok(Record(otpUri, Some(p.issuer + " " + p.accountLabel))) && db == old(db)[p.secret := r.value]
      ensures lib.parse(otpUri).Some? ==> forall k :: k != lib.parse(otpUri).value.secret ==>
        (k in db <==> k in old(db)) && (k in db ==> db[k] == old(db)[k])
      ensures |Keys()| == |old(Keys())| + (if r.Ok? && lib.parse(otpUri).value.secret !in old(db) then 1 else 0)
    {
      var p := lib.parse(otpUri);
      if p.None? {
        return Err(MalformedUri);
      }
      var rec := Record(otpUri, Some(p.value.issuer + " " + p.value.accountLabel));
      SortedKeysInsert(db.Keys, p.value.secret);
      assert db[p.value.secret := rec].Keys == db.Keys + {p.value.secret};
      db := db[p.value.secret := rec];
      r := Ok(rec);
    }

    /** `deleteNth(nth)`: removes the key at index `nth` and reports it; an
        index out of range changes nothing. */
    method DeleteNth(nth: Option<int>) returns (deleted: Option<string>)
      modifies this
      // The two clauses after the first unfold `NthKey` for the reader; the first
      // is what callers such as `Repl.Execute` use.
      ensures deleted == NthKey(old(Keys()), nth)
      ensures deleted.Some? <==> nth.Some? && 1 <= nth.value <= |old(Keys())|
      ensures deleted.Some? ==> deleted.value == old(Keys())[nth.value - 1]
      ensures deleted.None? ==> db == old(db)
      ensures deleted.Some? ==> db == old(db) - {deleted.value}
      ensures deleted.Some? ==> Keys() == old(Keys())[..nth.value - 1] + old(Keys())[nth.value..]
    {
      var keys := Keys();
      deleted := NthKey(keys, nth);
      if deleted.Some? {
        var k := deleted.value;
        ghost var remaining := db.Keys - {k};
        SortedKeysRemove(db.Keys, nth.value - 1);
        assert SortedKeys(remaining) == keys[..nth.value - 1] + keys[nth.value..];
        db := db - {k};
        assert db.Keys == remaining;
      }
    }

    /** `showNth(nth)`: the entry at index `nth` with its parsed Base32 secret;
        nothing for an index out of range, an error when the stored URI does
        not parse. */
    function ShowNth(nth: Option<int>): (r: Result<Option<Detail>, Error>)
      reads this
      ensures r == Ok(None) <==> !(nth.Some? && 1 <= nth.value <= |Keys()|)
      ensures r.Err? <==> nth.Some? && 1 <= nth.value <= |Keys()| && lib.parse(db[Keys()[nth.value - 1]].otpUri).None?
      ensures r.Ok? && r.value.Some? ==>
        var k := Keys()[nth.value - 1];
        r.value.value == Detail(nth.value, db[k].desc, db[k].otpUri, lib.parse(db[k].otpUri).value.secret)
    {
      match NthKey(Keys(), nth)
      case None => Ok(None)
      case Some(k) =>
        var rec := db[k];
        match lib.parse(rec.otpUri)
        case None => Err(MalformedUri)
        case Some(p) => Ok(Some(Detail(nth.value, rec.desc, rec.otpUri, p.secret)))
    }

    /** The stored URI under `k` parses. */
    predicate Parses(k: string)
      reads this
    {
      k in db && lib.parse(db[k].otpUri).Some?
    }

    /** The listing row of key `k` at index `idx`: the passcode comes from the
        parsed Base32 secret and the clock reading only. */
    function ListingRow(k: string, idx: nat, now: int): Row
      reads this
      requires Parses(k)
    {
      Row(idx, lib.generate(lib.parse(db[k].otpUri).value.secret, now), db[k].desc)
    }

    /** `rows` is the listing of the whole store at clock reading `now`: one row
        per key, in key order, row i numbered i+1. */
    predicate IsListing(rows: seq<Row>, now: int)
      reads this
    {
      |rows| == |Keys()| &&
      forall i :: 0 <= i < |rows| ==> Parses(Keys()[i]) && rows[i] == ListingRow(Keys()[i], i + 1, now)
    }

    /** `genAll()`: one row per key in ascending key order, numbered 1..n; the
        first stored URI that does not parse aborts the listing. */
    method GenAll(now: int) returns (r: Result<seq<Row>, Error>)
      ensures r.Ok? <==> forall k :: k in db ==> Parses(k)
      ensures r.Err? ==> r.error == MalformedUri
      ensures r.Ok? ==> IsListing(r.value, now)
    {
      var keys := Keys();
      var data: seq<Row> := [];
      var cnt := 0;
      while cnt < |keys|
        invariant 0 <= cnt <= |keys| && |data| == cnt
        invariant forall i :: 0 <= i < cnt ==> Parses(keys[i]) && data[i] == ListingRow(keys[i], i + 1, now)
      {
        var k := keys[cnt];
        cnt := cnt + 1;
        var rec := db[k];
        var otp := lib.parse(rec.otpUri);
        if otp.None? {
          assert !Parses(k);
          return Err(MalformedUri);
        }
        data := data + [Row(cnt, lib.generate(otp.value.secret, now), rec.desc)];
      }
      forall k | k in db
        ensures Parses(k)
      {
        var i :| 0 <= i < |keys| && keys[i] == k;
      }
      r := Ok(data);
    }
  }
}

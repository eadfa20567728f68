/**
 * `validate_record`: grading an extracted invoice record as ERROR,
 * WARNING or OK by which of its fields are present, with the matching
 * comment.
 *
 * A record is its entries in insertion order, each a key and a value;
 * a value is `None` or a string, and it is falsy (Python's `not v`)
 * when it is `None` or the empty string.
 */
module Utils {
  import opened Wrappers
  import opened Text

  datatype Status = OK | WARNING | ERROR

  type Record = seq<(string, Option<string>)>

  const FilenameKey: string := "Filename"
  const TotalKey: string := "Total Amount"

  /** Python's `not v` on a field value. */
  predicate Falsy(v: Option<string>) {
    v.None? || v.value == []
  }

  /** The keys are pairwise distinct, as in a Python `dict`. */
  predicate IsDict(rec: Record) {
    forall i, j :: 0 <= i < j < |rec| ==> rec[i].0 != rec[j].0
  }

  /** The position of the first entry with key `key`, or `|rec|` when there is none. */
  function KeyIndex(rec: Record, key: string): (k: nat)
    ensures k <= |rec|
    ensures k < |rec| ==> rec[k].0 == key
    ensures forall j :: 0 <= j < k ==> rec[j].0 != key
    decreases |rec|
  {
    if rec == [] then 0
    else if rec[0].0 == key then 0
    else 1 + KeyIndex(rec[1..], key)
  }

  /** `key in record`. */
  predicate HasKey(rec: Record, key: string) {
    KeyIndex(rec, key) < |rec|
  }

  /** `record[key]`, for a key the record has. */
  function Get(rec: Record, key: string): Option<string>
    requires HasKey(rec, key)
  {
    rec[KeyIndex(rec, key)].1
  }

  /** `"Total Amount" in record and record["Total Amount"]`. */
  predicate TotalPresent(rec: Record) {
    HasKey(rec, TotalKey) && !Falsy(Get(rec, TotalKey))
  }

  /** `[k for k, v in record.items() if k != "Filename" and not v]`. */
  function MissingKeys(rec: Record): (ks: seq<string>)
    ensures |ks| <= |rec|
    ensures FilenameKey !in ks
    decreases |rec|
  {
    if rec == [] then []
    else (if rec[0].0 != FilenameKey && Falsy(rec[0].1) then [rec[0].0] else []) + MissingKeys(rec[1..])
  }

  /**
   * `validate_record`: ERROR when the total amount is absent or falsy,
   * whatever else the record holds; otherwise WARNING naming the falsy
   * fields other than the file name, in key order; otherwise OK.
   */
  function ValidateRecord(rec: Record): (r: (Status, string))
    ensures r.0 == ERROR <==> !TotalPresent(rec)
    ensures r.0 == WARNING <==> TotalPresent(rec) && MissingKeys(rec) != []
    ensures r.1 == match r.0
                   case ERROR => "Missing total amount."
                   case WARNING => "Missing fields: " + Join(MissingKeys(rec), ", ")
                   case OK => "All key fields present."
  {
    var missing := MissingKeys(rec);
    if !TotalPresent(rec) then (ERROR, "Missing total amount.")
    else if missing != [] then (WARNING, "Missing fields: " + Join(missing, ", "))
    else (OK, "All key fields present.")
  }

  /** The missing keys of two runs of entries are those of the first, then those of the second. */
  lemma {:induction false} MissingKeysAppend(a: Record, b: Record)
    ensures MissingKeys(a + b) == MissingKeys(a) + MissingKeys(b)
    decreases |a|
  {
    if a == [] {
      assert a + b == b;
    } else {
      assert (a + b)[1..] == a[1..] + b;
      MissingKeysAppend(a[1..], b);
    }
  }

  /** A key is reported missing exactly when some entry other than the file name carries it with a falsy value. */
  lemma {:induction false} MissingKeysIff(rec: Record, k: string)
    ensures k in MissingKeys(rec) <==> exists i :: 0 <= i < |rec| && rec[i].0 == k && k != FilenameKey && Falsy(rec[i].1)
    decreases |rec|
  {
    if rec != [] {
      MissingKeysIff(rec[1..], k);
      if exists i :: 0 <= i < |rec[1..]| && rec[1..][i].0 == k && k != FilenameKey && Falsy(rec[1..][i].1) {
        var i :| 0 <= i < |rec[1..]| && rec[1..][i].0 == k && k != FilenameKey && Falsy(rec[1..][i].1);
        assert rec[i + 1] == rec[1..][i];
      }
      if exists i :: 0 <= i < |rec| && rec[i].0 == k && k != FilenameKey && Falsy(rec[i].1) {
        var i :| 0 <= i < |rec| && rec[i].0 == k && k != FilenameKey && Falsy(rec[i].1);
        if i > 0 {
          assert rec[1..][i - 1] == rec[i];
        }
      }
    }
  }

  /** A record whose total amount is absent or falsy is an ERROR, whatever its other fields hold. */
  lemma ErrorWhateverElse(rec: Record, other: Record)
    requires !TotalPresent(rec)
    requires HasKey(other, TotalKey) <==> HasKey(rec, TotalKey)
    requires HasKey(rec, TotalKey) ==> Get(other, TotalKey) == Get(rec, TotalKey)
    ensures ValidateRecord(rec) == (ERROR, "Missing total amount.")
    ensures ValidateRecord(other) == ValidateRecord(rec)
  {
  }

  /** A record is OK exactly when its total amount is present and every field but the file name is truthy. */
  lemma OkIff(rec: Record)
    ensures ValidateRecord(rec).0 == OK
            <==> HasKey(rec, TotalKey) && forall i :: 0 <= i < |rec| && rec[i].0 != FilenameKey ==> !Falsy(rec[i].1)
  {
    if HasKey(rec, TotalKey) && forall i :: 0 <= i < |rec| && rec[i].0 != FilenameKey ==> !Falsy(rec[i].1) {
      assert TotalPresent(rec);
      if MissingKeys(rec) != [] {
        var k := MissingKeys(rec)[0];
        MissingKeysIff(rec, k);
      }
    }
    if ValidateRecord(rec).0 == OK {
      forall i | 0 <= i < |rec| && rec[i].0 != FilenameKey ensures !Falsy(rec[i].1) {
        MissingKeysIff(rec, rec[i].0);
      }
    }
  }

  /** In a WARNING the total amount is never among the fields named, the keys being distinct. */
  lemma WarningOmitsTotal(rec: Record)
    requires IsDict(rec) && ValidateRecord(rec).0 == WARNING
    ensures TotalKey !in MissingKeys(rec)
    ensures FilenameKey !in MissingKeys(rec)
  {
    MissingKeysIff(rec, TotalKey);
    var t := KeyIndex(rec, TotalKey);
    forall i | 0 <= i < |rec| && rec[i].0 == TotalKey ensures !Falsy(rec[i].1) {
      assert i == t;
    }
  }
}

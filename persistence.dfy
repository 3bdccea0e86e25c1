/**
 * The storage side of a user's ledger (user.py): the file name derived from
 * the user name, the record written by `save_transactions` and the rule by
 * which `load_transactions` reads one back. The file system is a map from
 * file name to file content.
 */
module Persistence {
  import opened Wrappers
  import opened Text
  import opened Transactions

  const FileSuffix: string := "_transactions.json"

  /** One character of a user name as it appears in the file name. */
  function FileNameChar(c: char): char {
    if c == ' ' then '_' else LowerChar(c)
  }

  /** `s.replace(' ', '_')`. */
  function ReplaceSpaces(s: string): (r: string)
    ensures |r| == |s|
    ensures forall i :: 0 <= i < |s| ==> r[i] == if s[i] == ' ' then '_' else s[i]
  {
    seq(|s|, i requires 0 <= i < |s| => if s[i] == ' ' then '_' else s[i])
  }

  /** `f"{name.lower().replace(' ', '_')}_transactions.json"`. */
  function DataFile(name: string): string {
    ReplaceSpaces(Lower(name)) + FileSuffix
  }

  /**
   * The file name is the user name, character by character lower-cased with
   * spaces turned into underscores, then the fixed suffix; its stem holds no
   * space and no upper-case letter.
   */
  lemma DataFileShape(name: string)
    ensures var file := DataFile(name);
      && |file| == |name| + |FileSuffix|
      && file[|name|..] == FileSuffix
      && (forall i :: 0 <= i < |name| ==> file[i] == FileNameChar(name[i]))
      && (forall i :: 0 <= i < |name| ==> file[i] != ' ' && !('A' <= file[i] <= 'Z'))
  {
  }

  /**
   * Two user names share a file exactly when they differ only in the case of
   * their letters or in spaces against underscores: "Father" and "father" do.
   */
  lemma DataFileCollision(a: string, b: string)
    ensures DataFile(a) == DataFile(b) <==>
      |a| == |b| && forall i :: 0 <= i < |a| ==> FileNameChar(a[i]) == FileNameChar(b[i])
  {
    DataFileShape(a);
    DataFileShape(b);
    if DataFile(a) == DataFile(b) {
      assert |a| == |b|;
      forall i | 0 <= i < |a| ensures FileNameChar(a[i]) == FileNameChar(b[i]) {
        assert DataFile(a)[i] == DataFile(b)[i];
      }
    }
    if |a| == |b| && forall i :: 0 <= i < |a| ==> FileNameChar(a[i]) == FileNameChar(b[i]) {
      assert ReplaceSpaces(Lower(a)) == ReplaceSpaces(Lower(b));
    }
  }

  // ---------------------------------------------------------------- records

  /**
   * The content of one file: either text that does not parse as a JSON object
   * with the expected shape, or an object whose "user" and "transactions"
   * keys may each be absent.
   */
  datatype StoredFile =
    | Malformed
    | Record(user: Option<string>, transactions: Option<seq<Dict>>)

  type Files = map<string, StoredFile>

  /** `[t.to_dict() for t in ts]`. */
  function Encode(ts: seq<Transaction>): (ds: seq<Dict>)
    ensures |ds| == |ts|
    ensures forall i :: 0 <= i < |ts| ==> ds[i] == ToDict(ts[i])
  {
    seq(|ts|, i requires 0 <= i < |ts| => ToDict(ts[i]))
  }

  /** `[Transaction.from_dict(d) for d in ds]`: the first failure aborts the whole list. */
  function DecodeAll(ds: seq<Dict>): Option<seq<Transaction>> {
    if ds == [] then Some([])
    else match (FromDict(ds[0]), DecodeAll(ds[1..]))
      case (Success(t), Some(rest)) => Some([t] + rest)
      case _ => None
  }

  /** The record `save_transactions` writes (its `last_updated` stamp aside). */
  function SavedRecord(name: string, ts: seq<Transaction>): StoredFile {
    Record(Some(name), Some(Encode(ts)))
  }

  /** What `load_transactions` makes of a file that exists: any failure gives the empty list. */
  function Decoded(file: StoredFile): seq<Transaction> {
    match file
    case Malformed => []
    case Record(_, None) => []
    case Record(_, Some(ds)) =>
      match DecodeAll(ds)
      case None => []
      case Some(ts) => ts
  }

  /** The list a new `User` starts with: a missing file leaves it empty. */
  function Load(files: Files, file: string): seq<Transaction> {
    if file in files then Decoded(files[file]) else []
  }

  /** The list decodes exactly when every entry does, and then entry by entry. */
  lemma {:induction false} DecodeAllSpec(ds: seq<Dict>)
    ensures DecodeAll(ds).Some? <==> forall i :: 0 <= i < |ds| ==> FromDict(ds[i]).Success?
    ensures DecodeAll(ds).Some? ==>
      |DecodeAll(ds).value| == |ds| && forall i :: 0 <= i < |ds| ==> FromDict(ds[i]) == Success(DecodeAll(ds).value[i])
  {
    if ds != [] {
      DecodeAllSpec(ds[1..]);
      assert forall i :: 1 <= i < |ds| ==> ds[i] == ds[1..][i - 1];
    }
  }

  /** Decoding the encoded list gives it back. */
  lemma {:induction false} DecodeEncode(ts: seq<Transaction>)
    ensures DecodeAll(Encode(ts)) == Some(ts)
  {
    if ts != [] {
      DecodeEncode(ts[1..]);
      assert Encode(ts)[1..] == Encode(ts[1..]);
      FromDictToDict(ts[0]);
      assert ts == [ts[0]] + ts[1..];
    }
  }

  /** Loading what was saved gives back the same list, field for field. */
  lemma SaveLoadRoundTrip(files: Files, file: string, name: string, ts: seq<Transaction>)
    ensures Load(files[file := SavedRecord(name, ts)], file) == ts
  {
    DecodeEncode(ts);
  }

  /**
   * A record whose every entry decodes loads as those entries, one per
   * transaction, and a non-empty load can only come from such a record; a
   * missing file, a malformed one, one without a "transactions" key and one
   * with an entry that fails to decode all load as the empty list.
   */
  lemma LoadSpec(files: Files, file: string)
    ensures file !in files ==> Load(files, file) == []
    ensures file in files && files[file].Malformed? ==> Load(files, file) == []
    ensures file in files && files[file].Record? && files[file].transactions.None? ==> Load(files, file) == []
    ensures file in files && files[file].Record? && files[file].transactions.Some? ==>
      var ds := files[file].transactions.value;
      (exists i :: 0 <= i < |ds| && FromDict(ds[i]).Failure?) ==> Load(files, file) == []
    ensures file in files && files[file].Record? && files[file].transactions.Some? ==>
      var ds := files[file].transactions.value;
      (forall i :: 0 <= i < |ds| ==> FromDict(ds[i]).Success?) ==>
        |Load(files, file)| == |ds| && forall i :: 0 <= i < |ds| ==> FromDict(ds[i]) == Success(Load(files, file)[i])
    ensures Load(files, file) != [] ==>
      && file in files && files[file].Record? && files[file].transactions.Some?
      && var ds := files[file].transactions.value;
      && |ds| == |Load(files, file)|
      && forall i :: 0 <= i < |ds| ==> FromDict(ds[i]) == Success(Load(files, file)[i])
  {
    if file in files && files[file].Record? && files[file].transactions.Some? {
      DecodeAllSpec(files[file].transactions.value);
    }
  }

  /** The file system the ledgers read and write. */
  class Disk {
    var files: Files

    constructor (files: Files)
      ensures this.files == files
    {
      this.files := files;
    }
  }
}

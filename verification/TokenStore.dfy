/**
 The token store of the bridge: a keychain that may fail on any call, with a file
 behind it.
 */
module TokenStore {
  import opened Basics
  import opened Trimming

  datatype Kind = Keytar | File

  /** How a call to a store ends: it works, or it throws and leaves `left` behind. */
  datatype Write = Works | Throws(left: Option<string>)

  datatype Result = Token(value: string) | NoToken | Failed

  /** What the two stores hold; `keytar` is false when the module did not load. */
  datatype Stores = Stores(keytar: bool, keychain: Option<string>, file: Option<string>)

  function Written(before: Option<string>, value: Option<string>, how: Write): Option<string> {
    match how
    case Works => value
    case Throws(left) => left
  }

  /** The token a read of the file gives. */
  function FileToken(file: Option<string>): Option<string> {
    if file.Some? && Trim(file.value) != "" then Some(Trim(file.value)) else None
  }

  /** What a get returns, given which of the two reads work. */
  function Got(s: Stores, keychainWorks: bool, fileWorks: bool): Result {
    if s.keytar && keychainWorks && s.keychain.Some? && s.keychain.value != "" then Token(s.keychain.value)
    else if !fileWorks then Failed
    else
      match FileToken(s.file)
      case Some(t) => Token(t)
      case None => NoToken
  }

  /** The stores after a set, and whether it reported success. */
  function AfterSet(s: Stores, token: string, keychainSet: Write, fileClear: Write, fileSet: Write): (Stores, bool) {
    if s.keytar && keychainSet == Works then
      (s.(keychain := Some(token), file := Written(s.file, None, fileClear)), true)
    else
      (s.(keychain := if s.keytar then keychainSet.left else s.keychain, file := Written(s.file, Some(token), fileSet)),
       fileSet == Works)
  }

  function AfterClear(s: Stores, keychainClear: Write, fileClear: Write): (Stores, bool) {
    (s.(keychain := if s.keytar then Written(s.keychain, None, keychainClear) else s.keychain,
        file := Written(s.file, None, fileClear)),
     fileClear == Works)
  }

  class MultiSourceStore {
    var kind: Kind
    var stores: Stores

    constructor (stores: Stores)
      ensures this.stores == stores && kind == if stores.keytar then Keytar else File
    {
      this.stores := stores;
      kind := if stores.keytar then Keytar else File;
    }

    method Get(keychainWorks: bool, fileWorks: bool) returns (r: Result)
      modifies this`kind
      ensures r == Got(stores, keychainWorks, fileWorks)
      ensures r.Token? ==>
        kind == if stores.keytar && keychainWorks && stores.keychain == Some(r.value) then Keytar else File
      ensures r == Failed ==> kind == old(kind)
    {
      if stores.keytar && keychainWorks {
        if stores.keychain.Some? && stores.keychain.value != "" {
          kind := Keytar;
          return Token(stores.keychain.value);
        }
      }
      if !fileWorks {
        return Failed;
      }
      var value := FileToken(stores.file);
      kind := File;
      return if value.Some? then Token(value.value) else NoToken;
    }

    method Set(token: string, keychainSet: Write, fileClear: Write, fileSet: Write) returns (ok: bool)
      modifies this
      ensures (stores, ok) == AfterSet(old(stores), token, keychainSet, fileClear, fileSet)
      ensures ok ==> kind == if stores.keytar && keychainSet == Works then Keytar else File
      ensures !ok ==> kind == old(kind)
    {
      if stores.keytar {
        if keychainSet == Works {
          stores := stores.(keychain := Some(token));
          stores := stores.(file := if fileClear == Works then None else fileClear.left);
          kind := Keytar;
          return true;
        }
        stores := stores.(keychain := keychainSet.left);
      }
      if fileSet != Works {
        stores := stores.(file := fileSet.left);
        return false;
      }
      stores := stores.(file := Some(token));
      kind := File;
      return true;
    }

    method Clear(keychainClear: Write, fileClear: Write) returns (ok: bool)
      modifies this
      ensures (stores, ok) == AfterClear(old(stores), keychainClear, fileClear)
      ensures ok ==> kind == if stores.keytar && keychainClear == Works then Keytar else File
    {
      var clearedKeytar := false;
      if stores.keytar {
        if keychainClear == Works {
          stores := stores.(keychain := None);
          clearedKeytar := true;
        } else {
          stores := stores.(keychain := keychainClear.left);
        }
      }
      if fileClear != Works {
        stores := stores.(file := fileClear.left);
        return false;
      }
      stores := stores.(file := None);
      kind := if clearedKeytar then Keytar else File;
      return true;
    }
  }

  // ---- What later gets can return ----

  /** Under every pattern of failures, a get returns `token` or no token at all. */
  ghost predicate GivesOnly(s: Stores, token: string) {
    forall k, f :: Got(s, k, f).Token? ==> Got(s, k, f).value == token
  }

  predicate HoldsOnly(text: Option<string>, token: string) {
    text.None? || text.value == "" || text.value == token
  }

  /** Neither store holds another token: a stale one in either resurfaces as soon as
      the other read fails or comes up empty. */
  lemma GivesOnlyWhenBothAgree(s: Stores, token: string)
    ensures GivesOnly(s, token) <==>
      (s.keytar ==> HoldsOnly(s.keychain, token)) && HoldsOnly(FileToken(s.file), token)
  {
    assert Got(s, true, true) == Got(s, true, true);
    if FileToken(s.file).Some? {
      assert Trim(s.file.value) != "";
      assert Got(s, false, true) == Token(FileToken(s.file).value);
    }
  }

  /** After a set the keychain accepted, gets are limited to the new token exactly
      when the file was cleared or what stayed in it is blank or the token itself. */
  lemma SetThroughKeychain(s: Stores, token: string, fileClear: Write, fileSet: Write)
    requires s.keytar
    ensures var (after, ok) := AfterSet(s, token, Works, fileClear, fileSet);
      ok && (GivesOnly(after, token) <==> fileClear == Works || HoldsOnly(FileToken(fileClear.left), token))
  {
    GivesOnlyWhenBothAgree(AfterSet(s, token, Works, fileClear, fileSet).0, token);
  }

  /** After a set that fell back to the file, gets are limited to some text exactly when
      that is what a read of the file makes of the new token (its trimmed text, or
      nothing) and the failed keychain write left no other token behind. */
  lemma SetThroughFile(s: Stores, token: string, keychainSet: Write, fileClear: Write, text: string)
    requires s.keytar ==> keychainSet.Throws?
    ensures var (after, ok) := AfterSet(s, token, keychainSet, fileClear, Works);
      ok && (GivesOnly(after, text) <==>
        HoldsOnly(FileToken(Some(token)), text) && (!s.keytar || HoldsOnly(keychainSet.left, text)))
  {
    GivesOnlyWhenBothAgree(AfterSet(s, token, keychainSet, fileClear, Works).0, text);
  }

  /** A keychain that is down for one login only keeps its old token, and hands it
      out again for the new one as soon as it is back. */
  lemma OldKeychainTokenResurfaces()
    ensures var before := Stores(true, Some("old"), None);
      var (after, ok) := AfterSet(before, "new", Throws(before.keychain), Works, Works);
      ok && Got(after, true, true) == Token("old")
  {
  }

  // ---- Runs ----

  datatype Operation =
    | GetOp(keychainWorks: bool, fileWorks: bool)
    | SetOp(token: string, keychainSet: Write, fileClear: Write, fileSet: Write)
    | ClearOp(keychainClear: Write, fileClear: Write)

  function After(s: Stores, op: Operation): Stores {
    match op
    case GetOp(_, _) => s
    case SetOp(t, k, c, f) => AfterSet(s, t, k, c, f).0
    case ClearOp(k, f) => AfterClear(s, k, f).0
  }

  function Run(s: Stores, ops: seq<Operation>): Stores
    decreases ops
  {
    if ops == [] then s else Run(After(s, ops[0]), ops[1..])
  }

  lemma {:induction false} RunAppend(s: Stores, a: seq<Operation>, b: seq<Operation>)
    ensures Run(s, a + b) == Run(Run(s, a), b)
    decreases a
  {
    if a == [] {
      assert a + b == b;
    } else {
      assert (a + b)[1..] == a[1..] + b;
      RunAppend(After(s, a[0]), a[1..], b);
    }
  }

  lemma {:induction false} GetsChangeNothing(s: Stores, gets: seq<Operation>)
    requires forall op :: op in gets ==> op.GetOp?
    ensures Run(s, gets) == s
  {
    if gets != [] {
      assert gets[0] in gets;
      GetsChangeNothing(s, gets[1..]);
    }
  }

  lemma {:induction false} KeytarStays(s: Stores, ops: seq<Operation>)
    ensures Run(s, ops).keytar == s.keytar
    decreases ops
  {
    if ops != [] {
      KeytarStays(After(s, ops[0]), ops[1..]);
    }
  }

  /** After any history, once the keychain accepts a set and the file is cleared,
      every get until the next set or clear gives that token or none, whatever fails. */
  lemma LoginIsCurrent(s: Stores, history: seq<Operation>, token: string, fileSet: Write, gets: seq<Operation>)
    requires s.keytar && forall op :: op in gets ==> op.GetOp?
    ensures GivesOnly(Run(s, history + [SetOp(token, Works, Works, fileSet)] + gets), token)
  {
    var login := SetOp(token, Works, Works, fileSet);
    var before := Run(s, history);
    KeytarStays(s, history);
    RunAppend(s, history + [login], gets);
    RunAppend(s, history, [login]);
    assert Run(before, [login]) == After(before, login) by { assert [login][1..] == []; }
    GetsChangeNothing(After(before, login), gets);
    SetThroughKeychain(before, token, Works, fileSet);
  }

  /** After any history, a clear that reached both stores leaves no get a token. */
  lemma LogoutIsComplete(s: Stores, history: seq<Operation>, gets: seq<Operation>, k: bool, f: bool)
    requires forall op :: op in gets ==> op.GetOp?
    ensures !Got(Run(s, history + [ClearOp(Works, Works)] + gets), k, f).Token?
  {
    var logout := ClearOp(Works, Works);
    var before := Run(s, history);
    RunAppend(s, history + [logout], gets);
    RunAppend(s, history, [logout]);
    assert Run(before, [logout]) == After(before, logout) by { assert [logout][1..] == []; }
    GetsChangeNothing(After(before, logout), gets);
  }
}

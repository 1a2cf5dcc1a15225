/** `ReadArtifactRepositoryReaderFactory.create`: which artifact repository reader a preview
    run uses, decided by the configured storage implementation. The two storage constants
    are parameters, and the injector lookups become the kind of reader chosen. */
module ArtifactReaderFactory {
  import opened Wrappers

  datatype ReaderKind = RemoteReader | LocalReader

  datatype FactoryError =
    | MissingStorageImplementation        // IllegalStateException
    | UnsupportedStorage(value: string)   // UnsupportedOperationException, with the lowercased value

  function LowerChar(ch: char): char {
    if 'A' <= ch <= 'Z' then (ch as int - 'A' as int + 'a' as int) as char else ch
  }

  /** `String.toLowerCase()` on ASCII letters. */
  function Lower(s: string): (r: string)
    ensures |r| == |s|
    ensures forall i :: 0 <= i < |s| ==> r[i] == LowerChar(s[i])
    decreases |s|
  {
    if s == [] then [] else [LowerChar(s[0])] + Lower(s[1..])
  }

  /** `create()`: no value is an error; otherwise the lowercased value is compared with the
      NoSQL constant first, then the SQL constant, and anything else is unsupported. */
  function Create(storageImpl: Option<string>, nosql: string, sql: string): (r: Result<ReaderKind, FactoryError>)
    ensures storageImpl.None? <==> r == Err(MissingStorageImplementation)
    ensures storageImpl.Some? ==>
      var v := Lower(storageImpl.value);
      && (r == Ok(RemoteReader) <==> v == nosql)
      && (r == Ok(LocalReader) <==> v == sql && v != nosql)
      && (r.Err? <==> v != nosql && v != sql)
      && (r.Err? ==> r.error == UnsupportedStorage(v))
  {
    if storageImpl.None? then Err(MissingStorageImplementation)
    else
      var v := Lower(storageImpl.value);
      if v == nosql then Ok(RemoteReader)
      else if v == sql then Ok(LocalReader)
      else Err(UnsupportedStorage(v))
  }

  lemma LowerIdempotent(s: string)
    ensures Lower(Lower(s)) == Lower(s)
  {
    assert forall i :: 0 <= i < |s| ==> LowerChar(LowerChar(s[i])) == LowerChar(s[i]);
  }

  /** The choice ignores case: a value and its lowercased form select the same reader. */
  lemma CreateIgnoresCase(s: string, nosql: string, sql: string)
    ensures Create(Some(s), nosql, sql) == Create(Some(Lower(s)), nosql, sql)
  {
    LowerIdempotent(s);
  }

  /** Because the value is lowercased before the comparison, a constant that is not all
      lower case can never be selected. */
  lemma SelectedConstantIsLowerCase(s: string, nosql: string, sql: string)
    ensures Create(Some(s), nosql, sql) == Ok(RemoteReader) ==> Lower(nosql) == nosql
    ensures Create(Some(s), nosql, sql) == Ok(LocalReader) ==> Lower(sql) == sql
  {
    LowerIdempotent(s);
  }
}

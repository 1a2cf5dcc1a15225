/** Table-name conversion for HBase 0.94, which has no namespaces: a CDAP namespace is
    folded into the HBase table name as a prefix ending in '.'. The helpers the converter
    inherits (`getHBaseTableName`, `toHBaseNamespace`, `HTableNameConverter.from`) and the
    CDAP constants are not part of this model; they are parameters here, with nothing
    assumed about them. */
module HTable94NameConverter {
  import opened Wrappers

  /** The constants the converter reads. */
  datatype Constants = Constants(
    defaultNamespace: string,     // Constants.DEFAULT_NAMESPACE
    defaultNamespaceId: string,   // Constants.DEFAULT_NAMESPACE_ID, compared with a table's namespace
    systemNamespace: string,      // Constants.SYSTEM_NAMESPACE
    hbaseNamespacePrefix: string) // HTableNameConverter.HBASE_NAMESPACE_PREFIX

  datatype TableId = TableId(namespace: string, tableName: string)

  /** The namespace and qualifier `fromTableName` hands to `HTableNameConverter.from`. */
  datatype HBaseName = HBaseName(namespace: string, qualifier: string)

  datatype NameError =
    | NullTableName     // IllegalArgumentException
    | NullTableId       // IllegalArgumentException
    | MissingQualifier  // ArrayIndexOutOfBoundsException on parts[1]

  /** `s.split("\\.", 2)`: the text before the first '.', and everything after it when
      there is a '.'. */
  function SplitAtFirstDot(s: string): (parts: seq<string>)
    ensures 1 <= |parts| <= 2
    ensures '.' !in parts[0]
    ensures |parts| == 1 <==> '.' !in s
    ensures |parts| == 1 ==> parts[0] == s
    ensures |parts| == 2 ==> s == parts[0] + "." + parts[1]
    decreases |s|
  {
    if s == [] then [s]
    else if s[0] == '.' then ["", s[1..]]
    else
      var rest := SplitAtFirstDot(s[1..]);
      assert s == [s[0]] + s[1..];
      [[s[0]] + rest[0]] + rest[1..]
  }

  /** `fromTableName`: a leading part without '_' means the default namespace and the whole
      name as qualifier; otherwise the leading part is the namespace and the rest, later
      dots included, the qualifier. */
  function FromTableName(c: Constants, hTableName: Option<string>): (r: Result<HBaseName, NameError>)
    ensures hTableName.None? ==> r == Err(NullTableName)
    ensures hTableName.Some? ==>
      var name, lead := hTableName.value, SplitAtFirstDot(hTableName.value)[0];
      && ('_' !in lead ==> r == Ok(HBaseName(c.defaultNamespace, name)))
      && ('_' in lead && '.' !in name ==> r == Err(MissingQualifier))
      && ('_' in lead && '.' in name ==>
            && r.Ok? && r.value.namespace == lead && '.' !in r.value.namespace
            && name == r.value.namespace + "." + r.value.qualifier)
  {
    if hTableName.None? then Err(NullTableName)
    else
      var parts := SplitAtFirstDot(hTableName.value);
      if '_' !in parts[0] then Ok(HBaseName(c.defaultNamespace, hTableName.value))
      else if |parts| < 2 then Err(MissingQualifier)
      else Ok(HBaseName(parts[0], parts[1]))
  }

  /** `toTableName`: a table in the default namespace keeps its bare HBase table name; any
      other gets its HBase namespace and a '.' in front. */
  function ToTableName(c: Constants, hbaseTableName: TableId -> string, toHBaseNamespace: string -> string,
                       tableId: Option<TableId>): (r: Result<string, NameError>)
    ensures tableId.None? <==> r == Err(NullTableId)
    ensures tableId.Some? && tableId.value.namespace == c.defaultNamespaceId ==>
      r == Ok(hbaseTableName(tableId.value))
    ensures tableId.Some? && tableId.value.namespace != c.defaultNamespaceId ==>
      r == Ok(toHBaseNamespace(tableId.value.namespace) + "." + hbaseTableName(tableId.value))
  {
    if tableId.None? then Err(NullTableId)
    else if tableId.value.namespace == c.defaultNamespaceId then Ok(hbaseTableName(tableId.value))
    else Ok(toHBaseNamespace(tableId.value.namespace) + "." + hbaseTableName(tableId.value))
  }

  /** `getSysConfigTablePrefix`: the same prefix whatever table name it is asked about. */
  function SysConfigTablePrefix(c: Constants, hTableName: string): (prefix: string)
    ensures |prefix| == |c.hbaseNamespacePrefix| + |c.systemNamespace| + 1
    ensures prefix[|prefix| - 1] == '.'
    ensures prefix[..|c.hbaseNamespacePrefix|] == c.hbaseNamespacePrefix
    ensures prefix[|c.hbaseNamespacePrefix|..|prefix| - 1] == c.systemNamespace
  {
    c.hbaseNamespacePrefix + c.systemNamespace + "."
  }

  /** Splitting a name built as `lead + "." + rest` gives back `lead` and `rest`, when `lead`
      has no '.'. */
  lemma {:induction false} SplitJoined(lead: string, rest: string)
    requires '.' !in lead
    ensures SplitAtFirstDot(lead + "." + rest) == [lead, rest]
    decreases |lead|
  {
    var s := lead + "." + rest;
    if lead == [] {
      assert s == ['.'] + rest;
    } else {
      assert s[0] == lead[0] && s[1..] == lead[1..] + "." + rest;
      SplitJoined(lead[1..], rest);
      assert [s[0]] + lead[1..] == lead;
    }
  }

  /** When the HBase namespace contains a '_' and no '.' (as the converter expects of it),
      a non-default table name converts back to its HBase namespace and table name. */
  lemma FromToNonDefault(c: Constants, hbaseTableName: TableId -> string, toHBaseNamespace: string -> string, id: TableId)
    requires id.namespace != c.defaultNamespaceId
    requires '_' in toHBaseNamespace(id.namespace) && '.' !in toHBaseNamespace(id.namespace)
    ensures FromTableName(c, Some(ToTableName(c, hbaseTableName, toHBaseNamespace, Some(id)).value)) ==
      Ok(HBaseName(toHBaseNamespace(id.namespace), hbaseTableName(id)))
  {
    SplitJoined(toHBaseNamespace(id.namespace), hbaseTableName(id));
  }

  /** A default-namespace table whose HBase name has no '_' before its first '.' converts
      back to the default namespace with its HBase name as qualifier. */
  lemma FromToDefault(c: Constants, hbaseTableName: TableId -> string, toHBaseNamespace: string -> string, id: TableId)
    requires id.namespace == c.defaultNamespaceId
    requires '_' !in SplitAtFirstDot(hbaseTableName(id))[0]
    ensures FromTableName(c, Some(ToTableName(c, hbaseTableName, toHBaseNamespace, Some(id)).value)) ==
      Ok(HBaseName(c.defaultNamespace, hbaseTableName(id)))
  {
  }
}

/** The back end's job handler (_extract_email_be): it unpacks the job's content into the
    parameter file, the output file and the option, reads and checks the parameter file, and
    hands the named data file to the ingestion. Configuration problems are answered with
    (nmsg, False, message); a malformed job content raises. */
module Handler {
  import opened Json
  import opened Text
  import opened VectorStore
  import opened Ingest

  // ---------------------------------------------------------------------------
  // Unpacking the job content
  // ---------------------------------------------------------------------------

  /** The outcome of `[parm_file, parm_out_file, option] = message.split('@')`. */
  datatype Unpacked =
    | UnpackError(reason: string)   // the ValueError that the unpacking raises
    | Unpacked(paramFile: string, outFile: string, option: string)

  /** Splitting the content at '@' unpacks into three texts exactly when it holds two '@';
      then they hold no '@' and joined again they give the content back. */
  function ParseMessage(message: string): (u: Unpacked)
    ensures u.Unpacked? <==> multiset(message)['@'] == 2
    ensures u.Unpacked? ==> '@' !in u.paramFile && '@' !in u.outFile && '@' !in u.option
    ensures u.Unpacked? ==> u.paramFile + "@" + u.outFile + "@" + u.option == message
  {
    var parts := Split(message, '@');
    if |parts| < 3 then
      UnpackError("not enough values to unpack (expected 3, got " + NatToDecimal(|parts|) + ")")
    else if |parts| > 3 then
      UnpackError("too many values to unpack (expected 3)")
    else
      JoinSplit(message, '@');
      JoinCons(parts[0], parts[1..], '@');
      JoinCons(parts[1], parts[2..], '@');
      assert parts[1..][1..] == parts[2..] && parts[2..] == [parts[2]];
      Unpacked(parts[0], parts[1], parts[2])
  }

  // ---------------------------------------------------------------------------
  // The parameter file
  // ---------------------------------------------------------------------------

  /** The files the handler can see: a file exists when it has an entry, which is what
      opening it and running json.load on it gives. */
  type Files = map<string, FileRead>

  /** What the parameter file configures. */
  datatype Config = Config(dataSource: string, collectionName: string, maxChunkSize: Value)

  datatype Checked = Rejected(message: string) | Accepted(config: Config)

  const DefaultMaxChunkSize: Value := Int(1000)

  /** The keys the parameter file must have, in the order they are read. */
  const RequiredKeys: seq<string> := ["data_source", "local_bd", "collection"]

  function MissingParamFileMessage(paramFile: string): string {
    "O arquivo de parâmetros não existe: " + paramFile
  }

  function ParamReadMessage(reason: string): string {
    "Erro ao ler arquivo de parâmetros: " + reason
  }

  /** str() of a KeyError quotes the key. */
  function MissingKeyMessage(key: string): string {
    "Parâmetro obrigatório não encontrado: '" + key + "'"
  }

  function MissingDataMessage(dataSource: Value): string {
    "Arquivo de dados não encontrado: " + PyStr(dataSource)
  }

  /** The TypeError raised by `parametros['data_source']` when the parameters are not an
      object. */
  function SubscriptError(v: Value): string
    requires !v.Object?
  {
    match v
    case Array(_) => "list indices must be integers or slices, not str"
    case Str(_) => "string indices must be integers, not 'str'"
    case _ => "'" + TypeName(v) + "' object is not subscriptable"
  }

  /** The first required key the parameters lack, if any. */
  function FirstMissingKey(fields: map<string, Value>, keys: seq<string>): (missing: Option<string>)
    ensures missing.None? <==> forall k :: 0 <= k < |keys| ==> keys[k] in fields
    ensures missing.Some? ==> exists k :: 0 <= k < |keys| && keys[k] == missing.value && keys[k] !in fields
                                && forall j :: 0 <= j < k ==> keys[j] in fields
  {
    if keys == [] then None
    else if keys[0] !in fields then Some(keys[0])
    else
      var rest := FirstMissingKey(fields, keys[1..]);
      if rest.Some? then
        var k :| 0 <= k < |keys[1..]| && keys[1..][k] == rest.value && keys[1..][k] !in fields
                 && forall j :: 0 <= j < k ==> keys[1..][j] in fields;
        assert keys[k + 1] == rest.value;
        rest
      else
        assert forall k :: 1 <= k < |keys| ==> keys[k] == keys[1..][k - 1];
        rest
  }

  /** The checks _extract_email_be makes on the parameter file and the data file, in the order
      it makes them. */
  function Configure(files: Files, paramFile: string): Checked {
    if paramFile !in files then Rejected(MissingParamFileMessage(paramFile))
    else match files[paramFile]
      case Unreadable(reason) => Rejected(ParamReadMessage(reason))
      case Parsed(params) =>
        if !params.Object? then Rejected(ParamReadMessage(SubscriptError(params)))
        else
          var fields := params.fields;
          match FirstMissingKey(fields, RequiredKeys)
          case Some(key) => Rejected(MissingKeyMessage(key))
          case None =>
            assert RequiredKeys[0] == "data_source" && RequiredKeys[2] == "collection";
            var dataSource := fields["data_source"];
            if !dataSource.Str? || dataSource.s !in files then Rejected(MissingDataMessage(dataSource))
            else Accepted(Config(dataSource.s, PyStr(fields["collection"]), GetOr(fields, "max_chunk_size", DefaultMaxChunkSize)))
  }

  /** The parameter file is accepted exactly when it exists, parses to an object with the
      three required keys, and names a data file that exists. */
  lemma ConfigureAccepts(files: Files, paramFile: string)
    ensures Configure(files, paramFile).Accepted? <==>
              paramFile in files && files[paramFile].Parsed? && files[paramFile].value.Object?
              && var fields := files[paramFile].value.fields;
                 "data_source" in fields && "local_bd" in fields && "collection" in fields
                 && fields["data_source"].Str? && fields["data_source"].s in files
  {
    if paramFile in files && files[paramFile].Parsed? && files[paramFile].value.Object? {
      var fields := files[paramFile].value.fields;
      var missing := FirstMissingKey(fields, RequiredKeys);
      assert missing.None? <==> "data_source" in fields && "local_bd" in fields && "collection" in fields by {
        assert RequiredKeys[0] == "data_source" && RequiredKeys[1] == "local_bd" && RequiredKeys[2] == "collection";
      }
    }
  }

  /** An accepted configuration names the data file, the collection named by str() of the
      "collection" entry, and a limit of 1000 unless the file gives one. */
  lemma AcceptedConfig(files: Files, paramFile: string)
    requires Configure(files, paramFile).Accepted?
    ensures var fields := files[paramFile].value.fields;
            var c := Configure(files, paramFile).config;
            "data_source" in fields && "collection" in fields
            && Str(c.dataSource) == fields["data_source"] && c.dataSource in files
            && c.collectionName == PyStr(fields["collection"])
            && c.maxChunkSize == (if "max_chunk_size" in fields then fields["max_chunk_size"] else Int(1000))
  {
    ConfigureAccepts(files, paramFile);
  }

  /** A missing key is reported by name; when several are missing the first one read is. */
  lemma MissingKeyReported(files: Files, paramFile: string, fields: map<string, Value>)
    requires paramFile in files && files[paramFile] == Parsed(Object(fields))
    requires "data_source" !in fields || "local_bd" !in fields || "collection" !in fields
    ensures Configure(files, paramFile) == Rejected(MissingKeyMessage(
              if "data_source" !in fields then "data_source"
              else if "local_bd" !in fields then "local_bd" else "collection"))
  {
    var missing := FirstMissingKey(fields, RequiredKeys);
    assert RequiredKeys[0] == "data_source" && RequiredKeys[1] == "local_bd" && RequiredKeys[2] == "collection";
    assert missing.Some?;
    var k :| 0 <= k < 3 && RequiredKeys[k] == missing.value && RequiredKeys[k] !in fields
             && forall j :: 0 <= j < k ==> RequiredKeys[j] in fields;
  }

  // ---------------------------------------------------------------------------
  // The handler
  // ---------------------------------------------------------------------------

  /** The handler's answer: the returned triple, or the exception it raises. */
  datatype Response = Returned(nmsg: int, ok: bool, message: string) | Raised(reason: string)

  /** The answer and the store's collections afterwards. */
  datatype Run = Run(response: Response, collections: map<string, Collection>)

  /** _extract_email_be as a whole. */
  function ExtractEmail(collections: map<string, Collection>, files: Files, nmsg: int, message: string,
                        fault: InitFault, encode: string -> Embedding): Run
  {
    match ParseMessage(message)
    case UnpackError(reason) => Run(Raised(reason), collections)
    case Unpacked(paramFile, _, option) =>
      match Configure(files, paramFile)
      case Rejected(text) => Run(Returned(nmsg, false, text), collections)
      case Accepted(c) =>
        var r := EmailDataOutcome(collections, c.collectionName, c.maxChunkSize, option, fault, files[c.dataSource], encode);
        Run(Returned(nmsg, r.ok, r.message), r.collections)
  }

  /** A content that does not unpack raises, and a rejected configuration is answered with
      (nmsg, False, message); neither touches the store. */
  lemma RejectedJobsChangeNothing(collections: map<string, Collection>, files: Files, nmsg: int, message: string,
                                  fault: InitFault, encode: string -> Embedding)
    requires ParseMessage(message).UnpackError? || Configure(files, ParseMessage(message).paramFile).Rejected?
    ensures var run := ExtractEmail(collections, files, nmsg, message, fault, encode);
            run.collections == collections
            && (multiset(message)['@'] != 2 ==> run.response.Raised?)
            && (multiset(message)['@'] == 2 ==>
                  run.response == Returned(nmsg, false, Configure(files, ParseMessage(message).paramFile).message))
  {
  }

  /** Whatever the handler returns carries the job's own message number. */
  lemma AnswerCarriesJobNumber(collections: map<string, Collection>, files: Files, nmsg: int, message: string,
                               fault: InitFault, encode: string -> Embedding)
    ensures var run := ExtractEmail(collections, files, nmsg, message, fault, encode);
            run.response.Returned? ==> run.response.nmsg == nmsg
  {
  }

  /** Three texts without '@', joined by '@', unpack into themselves. */
  lemma UnpackJoined(paramFile: string, outFile: string, option: string)
    requires '@' !in paramFile && '@' !in outFile && '@' !in option
    ensures ParseMessage(paramFile + "@" + outFile + "@" + option) == Unpacked(paramFile, outFile, option)
  {
    var parts := [paramFile, outFile, option];
    JoinCons(paramFile, [outFile, option], '@');
    JoinCons(outFile, [option], '@');
    assert [paramFile] + [outFile, option] == parts && [outFile] + [option] == [outFile, option];
    SplitJoin(parts, '@');
    assert Join(parts, '@') == paramFile + "@" + outFile + "@" + option;
  }

  /** The option travels unchanged to the ingestion: "-r" in either case recreates the
      collection. */
  lemma OptionRecreates(paramFile: string, outFile: string, option: string)
    requires '@' !in paramFile && '@' !in outFile && '@' !in option
    ensures var u := ParseMessage(paramFile + "@" + outFile + "@" + option);
            u.Unpacked? && u.option == option
            && (Recreate(u.option) <==> option == "-r" || option == "-R")
  {
    UnpackJoined(paramFile, outFile, option);
    LowerIsDashR(option);
  }

  /** The handler: _extract_email_be from unpacking the content to the returned triple. */
  method ExtractEmailBe(store: Store, files: Files, nmsg: int, message: string,
                        fault: InitFault, encode: string -> Embedding) returns (response: Response)
    modifies store
    ensures var run := ExtractEmail(old(store.collections), files, nmsg, message, fault, encode);
            response == run.response && store.collections == run.collections
  {
    var unpacked := ParseMessage(message);
    if unpacked.UnpackError? {
      return Raised(unpacked.reason);
    }
    var checked := Configure(files, unpacked.paramFile);
    if checked.Rejected? {
      return Returned(nmsg, false, checked.message);
    }
    var c := checked.config;
    var ok, text := ProcessEmailData(store, c.collectionName, c.maxChunkSize, unpacked.option, fault, files[c.dataSource], encode);
    return Returned(nmsg, ok, text);
  }
}

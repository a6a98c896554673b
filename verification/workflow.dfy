/** The new-analysis page (`NovaAnalise`): an analyst fills in a protocol and
    an address, uploads documents by clicking tiles, starts the (simulated)
    analysis, reviews the fixed result and concludes.

    React state updates are modelled as pure transitions over one immutable
    `State`. The three-second wait of the simulated analysis splits the start
    handler into two atomic transitions, `StartAnalysis` and
    `CompleteAnalysis`. */
module Workflow {
  import opened Domain
  import Seqs

  datatype Step = Upload | Processing | Review | Complete

  datatype DocType = Planta | Planilha | Documento

  datatype FileStatus = Pending | Uploaded | Analyzed | Error

  /** An uploaded file. Its id and name come from `Math.random` and
      `Date.now`; they are opaque inputs here. */
  datatype UploadedFile = UploadedFile(id: string, name: string, docType: DocType, status: FileStatus, size: string)

  /** A clickable tile of the document list. */
  datatype Tile = Tile(docType: DocType, caption: string)

  /** The five tiles. They share three document types: the last three are
      all of type `Documento`. */
  const RequiredDocuments: seq<Tile> := [
    Tile(Planta, "Planta Baixa"),
    Tile(Planilha, "Planilha de Metragens"),
    Tile(Documento, "Consulta de Viabilidade"),
    Tile(Documento, "Consulta Ambiental"),
    Tile(Documento, "Certidão Cadastral")
  ]

  datatype AlertKind = Warning | Info | Success

  datatype Alert = Alert(kind: AlertKind, message: string)

  /** The analysis result: a conformity score, the findings, and the measured
      values keyed by camelCase names, in insertion order. */
  datatype AnalysisResult = AnalysisResult(conformidade: int, alertas: seq<Alert>, metragens: seq<(string, string)>)

  /** The one result the simulated analysis ever produces. */
  const FixedResult: AnalysisResult := AnalysisResult(
    87,
    [
      Alert(Warning, "Recuo frontal abaixo do mínimo exigido (3m requerido, 2.5m encontrado)"),
      Alert(Info, "Taxa de ocupação dentro do limite (60% permitido, 55% utilizado)"),
      Alert(Success, "Altura máxima conforme Plano Diretor")
    ],
    [
      ("areaTotal", "450.00 m²"),
      ("areaPermitida", "480.00 m²"),
      ("taxaOcupacao", "55%"),
      ("coeficienteAproveitamento", "1.8")
    ])

  datatype State = State(
    step: Step,
    protocolo: string,
    endereco: string,
    files: seq<UploadedFile>,
    isAnalyzing: bool,
    result: Option<AnalysisResult>)

  /** The state the page mounts with. */
  const Initial: State := State(Upload, "", "", [], false, None)

  /** `uploadedFiles.some(f => f.type === t)`: a tile of type `t` is shown as sent. */
  predicate HasType(files: seq<UploadedFile>, t: DocType)
  {
    exists i :: 0 <= i < |files| && files[i].docType == t
  }

  /** No two records share a document type. */
  predicate DistinctTypes(files: seq<UploadedFile>)
  {
    forall i, j :: 0 <= i < j < |files| ==> files[i].docType != files[j].docType
  }

  /** `handleFileUpload`: appends one record of the given type with status
      `uploaded`; the handler itself does not look at the existing records. */
  function HandleFileUpload(s: State, t: DocType, id: string, name: string): (r: State)
    ensures |r.files| == |s.files| + 1
    ensures r.files[..|s.files|] == s.files
    ensures r.files[|s.files|].docType == t && r.files[|s.files|].status == Uploaded
    ensures r.(files := s.files) == s
  {
    s.(files := s.files + [UploadedFile(id, name, t, Uploaded, "2.4 MB")])
  }

  /** A click on tile `tile`: it uploads only when no record of the tile's
      type exists yet, so the three `Documento` tiles light up together. */
  function ClickTile(s: State, tile: nat, id: string, name: string): (r: State)
    requires tile < |RequiredDocuments|
    ensures HasType(r.files, RequiredDocuments[tile].docType)
    ensures DistinctTypes(s.files) ==> DistinctTypes(r.files)
    ensures HasType(s.files, RequiredDocuments[tile].docType) ==> r == s
    ensures !HasType(s.files, RequiredDocuments[tile].docType) ==>
              && |r.files| == |s.files| + 1
              && r.files[..|s.files|] == s.files
              && r.files[|s.files|].docType == RequiredDocuments[tile].docType
              && r.files[|s.files|].status == Uploaded
              && r.files[|s.files|].id == id && r.files[|s.files|].name == name
    ensures r.(files := s.files) == s
  {
    var t := RequiredDocuments[tile].docType;
    if HasType(s.files, t) then s
    else
      var r := HandleFileUpload(s, t, id, name);
      assert r.files[|s.files|].docType == t;
      r
  }

  /** The outcome of `startAnalysis`: a missing protocol or address is
      refused (the toast 'Preencha o protocolo e endereço') and nothing
      changes; otherwise the page moves to the processing step. */
  datatype StartOutcome = MissingFields | Started(state: State)

  function StartAnalysis(s: State): (r: StartOutcome)
    ensures r.MissingFields? <==> s.protocolo == "" || s.endereco == ""
    ensures r.Started? ==> r.state.step == Processing && r.state.isAnalyzing
    ensures r.Started? ==> r.state.(step := s.step, isAnalyzing := s.isAnalyzing) == s
  {
    if s.protocolo == "" || s.endereco == "" then MissingFields
    else Started(s.(step := Processing, isAnalyzing := true))
  }

  /** The second half of `startAnalysis`, after the simulated wait: stores the
      fixed result, clears `isAnalyzing` and moves to review. */
  function CompleteAnalysis(s: State): (r: State)
    ensures r.step == Review && !r.isAnalyzing && r.result == Some(FixedResult)
    ensures r.protocolo == s.protocolo && r.endereco == s.endereco && r.files == s.files
  {
    s.(result := Some(FixedResult), isAnalyzing := false, step := Review)
  }

  /** 'Voltar' on the review screen: only the step changes; in particular the
      previous result is kept. */
  function Voltar(s: State): (r: State)
    ensures r.step == Upload
    ensures r.(step := s.step) == s
  {
    s.(step := Upload)
  }

  /** `finishAnalysis`: only the step changes. */
  function FinishAnalysis(s: State): (r: State)
    ensures r.step == Complete
    ensures r.(step := s.step) == s
  {
    s.(step := Complete)
  }

  /** 'Nova Análise' on the completion screen: clears step, files, protocol,
      address and result; `isAnalyzing` is not touched. */
  function NovaAnalise(s: State): (r: State)
    ensures r.step == Upload && r.files == [] && r.protocolo == "" && r.endereco == "" && r.result == None
    ensures r.isAnalyzing == s.isAnalyzing
  {
    s.(step := Upload, files := [], protocolo := "", endereco := "", result := None)
  }

  /** The user actions and the one timer the page reacts to. */
  datatype Event =
    | EditProtocolo(value: string)
    | EditEndereco(value: string)
    | ClickDocument(tile: nat, fileId: string, fileName: string)
    | Start
    | AnalysisDone
    | GoBack
    | Finish
    | Restart

  /** Whether the control behind an event is on screen and usable: the form
      and the tiles only on the upload step, the start button only with at
      least two records, the review buttons only when a result is rendered,
      the restart button only on completion, and the analysis timer only while
      processing. */
  predicate Enabled(s: State, e: Event)
  {
    match e
    case EditProtocolo(_) => s.step == Upload
    case EditEndereco(_) => s.step == Upload
    case ClickDocument(tile, _, _) => s.step == Upload && tile < |RequiredDocuments|
    case Start => s.step == Upload && |s.files| >= 2
    case AnalysisDone => s.step == Processing
    case GoBack => s.step == Review && s.result.Some?
    case Finish => s.step == Review && s.result.Some?
    case Restart => s.step == Complete
  }

  /** Each step's controls lead only along the indicator's edges: the upload
      step stays or moves to processing (only by the start button),
      processing moves to review, review goes back to upload or on to
      completion, and completion restarts at upload. */
  function Next(s: State, e: Event): (r: State)
    requires Enabled(s, e)
    ensures s.step == Upload ==> r.step == Upload || (r.step == Processing && e.Start?)
    ensures s.step == Processing ==> r.step == Review
    ensures s.step == Review ==> (r.step == Upload && e.GoBack?) || (r.step == Complete && e.Finish?)
    ensures s.step == Complete ==> r.step == Upload
  {
    match e
    case EditProtocolo(v) => s.(protocolo := v)
    case EditEndereco(v) => s.(endereco := v)
    case ClickDocument(tile, id, name) => ClickTile(s, tile, id, name)
    case Start =>
      (match StartAnalysis(s)
       case MissingFields => s
       case Started(t) => t)
    case AnalysisDone => CompleteAnalysis(s)
    case GoBack => Voltar(s)
    case Finish => FinishAnalysis(s)
    case Restart => NovaAnalise(s)
  }

  /** Which controls each step offers: the form, the tiles and the start
      button (with two records) on upload; nothing but the timer while
      processing; *Voltar* and *Concluir* on review once a result is shown;
      only the restart button on completion. */
  lemma EnabledPerStep(s: State, e: Event)
    ensures s.step == Upload ==>
              (Enabled(s, e) <==> e.EditProtocolo? || e.EditEndereco? || (e.ClickDocument? && e.tile < 5)
                                  || (e.Start? && |s.files| >= 2))
    ensures s.step == Processing ==> (Enabled(s, e) <==> e.AnalysisDone?)
    ensures s.step == Review ==> (Enabled(s, e) <==> (e.GoBack? || e.Finish?) && s.result.Some?)
    ensures s.step == Complete ==> (Enabled(s, e) <==> e.Restart?)
  {
  }

  /** What holds of every state the page can reach. */
  predicate Inv(s: State)
  {
    && (s.isAnalyzing <==> s.step == Processing)
    && DistinctTypes(s.files)
    && (forall i :: 0 <= i < |s.files| ==> s.files[i].status == Uploaded)
    && (s.step != Upload ==> |s.files| >= 2 && s.protocolo != "" && s.endereco != "")
    && (s.step in {Review, Complete} ==> s.result.Some?)
    && (s.result.Some? ==> s.result.value == FixedResult)
  }

  lemma InitialInv()
    ensures Inv(Initial)
  {
  }

  /** Every enabled event keeps the invariant. */
  lemma InvPreserved(s: State, e: Event)
    requires Inv(s) && Enabled(s, e)
    ensures Inv(Next(s, e))
  {
    match e
    case EditProtocolo(v) =>
    case EditEndereco(v) =>
    case ClickDocument(tile, id, name) => ClickKeepsInv(s, tile, id, name);
    case Start => StartKeepsInv(s);
    case AnalysisDone =>
    case GoBack =>
    case Finish =>
    case Restart =>
  }

  lemma ClickKeepsInv(s: State, tile: nat, id: string, name: string)
    requires Inv(s) && s.step == Upload && tile < |RequiredDocuments|
    ensures Inv(ClickTile(s, tile, id, name))
  {
    var r := ClickTile(s, tile, id, name);
    if r != s {
      assert r.files == s.files + [r.files[|s.files|]];
      forall i | 0 <= i < |r.files|
        ensures r.files[i].status == Uploaded
      {
        if i < |s.files| {
          assert r.files[i] == s.files[i];
        }
      }
    }
  }

  lemma StartKeepsInv(s: State)
    requires Inv(s) && s.step == Upload && |s.files| >= 2
    ensures Inv(Next(s, Start))
  {
  }

  /** A start that leaves the upload step had a protocol, an address, and
      records of at least two different document types; one with a missing
      field changes nothing. */
  lemma StartGuard(s: State)
    requires Inv(s) && Enabled(s, Start)
    ensures Next(s, Start).step == Processing <==> s.protocolo != "" && s.endereco != ""
    ensures Next(s, Start).step != Processing ==> Next(s, Start) == s
    ensures s.files[0].docType != s.files[1].docType
  {
  }

  /** The tiles can produce at most one record per document type, hence at
      most three records. */
  lemma AtMostThreeFiles(files: seq<UploadedFile>)
    requires DistinctTypes(files)
    ensures |files| <= 3
  {
    if |files| > 3 {
      FourTypesCollide(files[0].docType, files[1].docType, files[2].docType, files[3].docType);
      assert false;
    }
  }

  /** Four document types over three values: two of them coincide. */
  lemma FourTypesCollide(a: DocType, b: DocType, c: DocType, d: DocType)
    ensures a == b || a == c || a == d || b == c || b == d || c == d
  {
  }

  /** The three `Documento` tiles share one upload: once any of them has been
      clicked, all three show as sent and clicking any of them changes
      nothing. */
  lemma DocumentoTilesShareState(s: State, tile: nat, id: string, name: string)
    requires 2 <= tile < |RequiredDocuments|
    requires HasType(s.files, Documento)
    ensures forall k :: 2 <= k < |RequiredDocuments| ==> HasType(s.files, RequiredDocuments[k].docType)
    ensures ClickTile(s, tile, id, name) == s
  {
  }

  /** 'Nova Análise' from any reachable completion screen restores exactly the
      state the page mounts with. */
  lemma RestartRestoresInitial(s: State)
    requires Inv(s) && Enabled(s, Restart)
    ensures Next(s, Restart) == Initial
  {
  }

  /** 'Voltar' keeps protocol, address, files and the existing result; only
      the step goes back to upload. */
  lemma GoBackKeepsResult(s: State)
    requires Inv(s) && Enabled(s, GoBack)
    ensures Next(s, GoBack).step == Upload
    ensures Next(s, GoBack).result == Some(FixedResult)
    ensures Next(s, GoBack).files == s.files
    ensures Next(s, GoBack).protocolo == s.protocolo && Next(s, GoBack).endereco == s.endereco
  {
  }

  /** The conclude button is reachable only from a rendered review, so a
      completed analysis always has its result. */
  lemma FinishOnlyFromReview(s: State)
    requires Inv(s) && Enabled(s, Finish)
    ensures Next(s, Finish).step == Complete
    ensures Next(s, Finish).result == Some(FixedResult)
  {
  }

  /** The upload half of a run: both tiles clicked after filling the form. */
  function UploadedBoth(): State
  {
    var s1 := Next(Initial, EditProtocolo("P"));
    var s2 := Next(s1, EditEndereco("E"));
    var s3 := Next(s2, ClickDocument(0, "a", "a"));
    Next(s3, ClickDocument(1, "b", "b"))
  }

  /** Clicking both tiles yields two records and enables the start button. */
  lemma ScenarioUpload()
    ensures |UploadedBoth().files| == 2 && UploadedBoth().step == Upload
    ensures UploadedBoth().protocolo == "P" && UploadedBoth().endereco == "E"
    ensures !UploadedBoth().isAnalyzing
  {
    var s1 := Next(Initial, EditProtocolo("P"));
    var s2 := Next(s1, EditEndereco("E"));
    assert s2.files == [] && s2.step == Upload;
    var s3 := Next(s2, ClickDocument(0, "a", "a"));
    assert |s3.files| == 1 && s3.files[0].docType == Planta && s3.step == Upload;
    assert !HasType(s3.files, Planilha);
  }

  /** From any upload state with a protocol, an address and two records, the
      analysis half of a run ends, after restarting, in the mount state. */
  lemma AnalysisRun(s: State)
    requires s.step == Upload && |s.files| >= 2 && !s.isAnalyzing
    requires s.protocolo != "" && s.endereco != ""
    ensures
      var s5 := Next(s, Start);
      var s6 := Next(s5, AnalysisDone);
      var s7 := Next(s6, Finish);
      && s5.step == Processing && s5.isAnalyzing
      && s6.step == Review && s6.result == Some(FixedResult)
      && s7.step == Complete
      && Next(s7, Restart) == Initial
  {
  }

  /** With a single record the start button is disabled. */
  lemma OneDocumentCannotStart(s: State)
    requires |s.files| < 2
    ensures !Enabled(s, Start)
  {
  }

  // ---------------------------------------------------------------------
  // Progress indicator

  /** The order of the steps in the indicator. */
  const StepOrder: seq<Step> := [Upload, Processing, Review, Complete]

  /** `indexOf(step)` in the indicator's key list. */
  function StepIndex(st: Step): (i: nat)
    ensures i < |StepOrder| && StepOrder[i] == st
  {
    match st
    case Upload => 0
    case Processing => 1
    case Review => 2
    case Complete => 3
  }

  /** `s.key === step` for the indicator entry at `index`. */
  predicate IsActive(st: Step, index: nat)
  {
    index < |StepOrder| && StepOrder[index] == st
  }

  /** `indexOf(step) > index`: the entry is shown with a check mark. */
  predicate IsPast(st: Step, index: nat)
  {
    StepIndex(st) > index
  }

  /** Exactly one entry is active, the past entries are exactly those before
      it, and no entry is both. */
  lemma IndicatorShape(st: Step)
    ensures forall i: nat :: IsActive(st, i) <==> i == StepIndex(st)
    ensures forall i: nat :: i < |StepOrder| ==> (IsPast(st, i) <==> i < StepIndex(st))
    ensures forall i: nat :: !(IsActive(st, i) && IsPast(st, i))
  {
  }

  // ---------------------------------------------------------------------
  // Review screen

  datatype Band = SuccessBand | WarningBand

  /** Colour of the conformity badge and bar. */
  function ConformityBand(c: int): Band
  {
    if c >= 80 then SuccessBand else WarningBand
  }

  /** The band is a threshold at 80: monotone in the score, and the fixed
      result of 87 is shown in the success colour. */
  lemma ConformityBandThreshold(c: int, d: int)
    ensures c <= d && ConformityBand(c) == SuccessBand ==> ConformityBand(d) == SuccessBand
    ensures ConformityBand(c) == SuccessBand <==> c >= 80
    ensures ConformityBand(FixedResult.conformidade) == SuccessBand
  {
  }

  /** The fixed result's shape. */
  lemma FixedResultShape()
    ensures FixedResult.conformidade == 87
    ensures |FixedResult.alertas| == 3 && |FixedResult.metragens| == 4
    ensures 0 <= FixedResult.conformidade <= 100
  {
  }

  /** The class `[A-Z]` of the key-label regular expression. */
  predicate IsUpperAscii(c: char)
  {
    'A' <= c <= 'Z'
  }

  predicate NotSpace(c: char)
  {
    c != ' '
  }


  /** Every capital has a space right before it. */
  predicate CapitalsPreceded(r: string)
  {
    forall i {:trigger IsUpperAscii(r[i])} :: 0 <= i < |r| && IsUpperAscii(r[i]) ==> i > 0 && r[i - 1] == ' '
  }

  /** `key.replace(/([A-Z])/g, ' $1')`: a space before every capital. */
  function SpaceBeforeCapitals(s: string): string
  {
    if |s| == 0 then ""
    else (if IsUpperAscii(s[0]) then [' ', s[0]] else [s[0]]) + SpaceBeforeCapitals(s[1..])
  }

  /** The replacement adds one character per capital, and leaves every
      capital preceded by a space. */
  lemma {:induction false} SpaceBeforeCapitalsShape(s: string)
    ensures |SpaceBeforeCapitals(s)| == |s| + Seqs.CountWhere(s, IsUpperAscii)
    ensures CapitalsPreceded(SpaceBeforeCapitals(s))
    decreases |s|
  {
    if |s| > 0 {
      SpaceBeforeCapitalsShape(s[1..]);
      var head := if IsUpperAscii(s[0]) then [' ', s[0]] else [s[0]];
      var rest := SpaceBeforeCapitals(s[1..]);
      var r := head + rest;
      assert SpaceBeforeCapitals(s) == r;
      forall i | 0 <= i < |r| && IsUpperAscii(r[i])
        ensures i > 0 && r[i - 1] == ' '
      {
        if i >= |head| {
          assert r[i] == rest[i - |head|];
          if i - |head| > 0 {
            assert r[i - 1] == rest[i - 1 - |head|];
          }
        }
      }
    }
  }

  /** The replacement only inserts spaces: with spaces removed, the label and
      the key read the same. */
  lemma {:induction false} SpaceBeforeCapitalsOnlyInserts(s: string)
    ensures Seqs.Filter(SpaceBeforeCapitals(s), NotSpace) == Seqs.Filter(s, NotSpace)
    decreases |s|
  {
    if |s| > 0 {
      var head := if IsUpperAscii(s[0]) then [' ', s[0]] else [s[0]];
      var rest := SpaceBeforeCapitals(s[1..]);
      SpaceBeforeCapitalsOnlyInserts(s[1..]);
      Seqs.FilterConcat(head, rest, NotSpace);
      Seqs.FilterConcat([s[0]], s[1..], NotSpace);
      assert s == [s[0]] + s[1..];
      if IsUpperAscii(s[0]) {
        Seqs.FilterConcat([' '], [s[0]], NotSpace);
        assert head == [' '] + [s[0]];
      }
    }
  }

  /** A key without capitals is its own label text. */
  lemma {:induction false} NoCapitalsUnchanged(s: string)
    requires forall i :: 0 <= i < |s| ==> !IsUpperAscii(s[i])
    ensures SpaceBeforeCapitals(s) == s
    decreases |s|
  {
    if |s| > 0 {
      NoCapitalsUnchanged(s[1..]);
      assert s == [s[0]] + s[1..];
    }
  }

  /** The replacement works piecewise on a concatenation. */
  lemma {:induction false} SpaceBeforeCapitalsConcat(a: string, b: string)
    ensures SpaceBeforeCapitals(a + b) == SpaceBeforeCapitals(a) + SpaceBeforeCapitals(b)
    decreases |a|
  {
    if |a| > 0 {
      assert (a + b)[1..] == a[1..] + b;
      SpaceBeforeCapitalsConcat(a[1..], b);
    } else {
      assert a + b == b;
    }
  }

  /** The last character is never moved or replaced. */
  lemma {:induction false} SpaceBeforeCapitalsLast(s: string)
    requires |s| > 0
    ensures |SpaceBeforeCapitals(s)| > 0
    ensures SpaceBeforeCapitals(s)[|SpaceBeforeCapitals(s)| - 1] == s[|s| - 1]
    decreases |s|
  {
    if |s| > 1 {
      SpaceBeforeCapitalsLast(s[1..]);
    }
  }

  /** `String.prototype.trim`'s white space: the WhiteSpace and LineTerminator
      code points of ECMAScript. */
  predicate IsJsWhitespace(c: char)
  {
    || c == '\t' || c == '\n' || c == '\U{000B}' || c == '\U{000C}' || c == '\r'
    || c == ' ' || c == '\U{00A0}' || c == '\U{1680}'
    || ('\U{2000}' <= c <= '\U{200A}')
    || c == '\U{2028}' || c == '\U{2029}' || c == '\U{202F}' || c == '\U{205F}'
    || c == '\U{3000}' || c == '\U{FEFF}'
  }

  /** Length of the longest all-white-space prefix. */
  function LeadingWhitespace(s: string): (n: nat)
    ensures n <= |s|
    ensures forall i :: 0 <= i < n ==> IsJsWhitespace(s[i])
    ensures n < |s| ==> !IsJsWhitespace(s[n])
  {
    if |s| == 0 || !IsJsWhitespace(s[0]) then 0
    else 1 + LeadingWhitespace(s[1..])
  }

  /** Length of the longest all-white-space suffix. */
  function TrailingWhitespace(s: string): (n: nat)
    ensures n <= |s|
    ensures forall i :: |s| - n <= i < |s| ==> IsJsWhitespace(s[i])
    ensures n < |s| ==> !IsJsWhitespace(s[|s| - n - 1])
  {
    if |s| == 0 || !IsJsWhitespace(s[|s| - 1]) then 0
    else 1 + TrailingWhitespace(s[..|s| - 1])
  }

  /** `String.prototype.trim`: what lies between the white-space prefix and
      the white-space suffix; nothing at all for an all-white-space string. */
  function Trim(s: string): (r: string)
    ensures |r| == 0 || (!IsJsWhitespace(r[0]) && !IsJsWhitespace(r[|r| - 1]))
    ensures LeadingWhitespace(s) + |r| <= |s|
    ensures r == s[LeadingWhitespace(s)..LeadingWhitespace(s) + |r|]
    ensures r != [] ==> LeadingWhitespace(s) + |r| + TrailingWhitespace(s) == |s|
    ensures r == [] <==> LeadingWhitespace(s) == |s|
  {
    var lead := LeadingWhitespace(s);
    if lead == |s| then ""
    else
      var trail := TrailingWhitespace(s);
      assert !IsJsWhitespace(s[lead]);
      s[lead..|s| - trail]
  }

  /** The caption of a measured value: `key.replace(/([A-Z])/g, ' $1').trim()`. */
  function KeyLabel(key: string): string
  {
    Trim(SpaceBeforeCapitals(key))
  }

  /** For a key without white space, the trim only removes the space put in
      front of a leading capital. */
  lemma KeyLabelOfPlainKey(key: string)
    requires forall i :: 0 <= i < |key| ==> !IsJsWhitespace(key[i])
    ensures |key| > 0 && IsUpperAscii(key[0]) ==> KeyLabel(key) == SpaceBeforeCapitals(key)[1..]
    ensures |key| == 0 || !IsUpperAscii(key[0]) ==> KeyLabel(key) == SpaceBeforeCapitals(key)
  {
    if |key| > 0 {
      if IsUpperAscii(key[0]) {
        PlainKeyWithCapital(key);
      } else {
        PlainKeyWithoutCapital(key);
      }
    }
  }

  lemma PlainKeyWithCapital(key: string)
    requires |key| > 0 && IsUpperAscii(key[0])
    requires forall i :: 0 <= i < |key| ==> !IsJsWhitespace(key[i])
    ensures KeyLabel(key) == SpaceBeforeCapitals(key)[1..]
  {
    var m := SpaceBeforeCapitals(key);
    SpaceBeforeCapitalsLast(key);
    assert !IsJsWhitespace(m[|m| - 1]);
    assert m == [' ', key[0]] + SpaceBeforeCapitals(key[1..]);
    assert m[0] == ' ' && m[1] == key[0];
    TrimOfPlain(m, 1);
  }

  lemma PlainKeyWithoutCapital(key: string)
    requires |key| > 0 && !IsUpperAscii(key[0])
    requires forall i :: 0 <= i < |key| ==> !IsJsWhitespace(key[i])
    ensures KeyLabel(key) == SpaceBeforeCapitals(key)
  {
    var m := SpaceBeforeCapitals(key);
    SpaceBeforeCapitalsLast(key);
    assert !IsJsWhitespace(m[|m| - 1]);
    assert m == [key[0]] + SpaceBeforeCapitals(key[1..]);
    assert m[0] == key[0];
    TrimOfPlain(m, 0);
    assert m[0..] == m;
  }

  /** Trimming a string that has `k` white-space characters in front and a
      non-white-space character at position `k` and at the end drops exactly
      the first `k`. */
  lemma TrimOfPlain(m: string, k: nat)
    requires k < |m|
    requires forall i :: 0 <= i < k ==> IsJsWhitespace(m[i])
    requires !IsJsWhitespace(m[k]) && !IsJsWhitespace(m[|m| - 1])
    ensures Trim(m) == m[k..]
  {
    LeadingWhitespaceIs(m, k);
    assert TrailingWhitespace(m) == 0;
  }

  lemma {:induction false} LeadingWhitespaceIs(m: string, k: nat)
    requires k < |m|
    requires forall i :: 0 <= i < k ==> IsJsWhitespace(m[i])
    requires !IsJsWhitespace(m[k])
    ensures LeadingWhitespace(m) == k
    decreases k
  {
    if k > 0 {
      LeadingWhitespaceIs(m[1..], k - 1);
    }
  }

  /** The captions of the fixed result's measurements. */
  lemma FixedResultLabels()
    ensures KeyLabel("areaTotal") == "area Total"
    ensures KeyLabel("areaPermitida") == "area Permitida"
    ensures KeyLabel("taxaOcupacao") == "taxa Ocupacao"
    ensures KeyLabel("coeficienteAproveitamento") == "coeficiente Aproveitamento"
  {
    LabelAreaTotal();
    LabelAreaPermitida();
    LabelTaxaOcupacao();
    LabelCoeficienteAproveitamento();
  }

  lemma LabelAreaTotal()
    ensures KeyLabel("areaTotal") == "area Total"
  {
    WordsAreaTotal();
    LabelOfTwoWords("area", 'T', "otal");
  }

  lemma WordsAreaTotal()
    ensures AllLower("area") && AllLower("otal")
    ensures "area" + ['T'] + "otal" == "areaTotal"
    ensures "area" + " " + ['T'] + "otal" == "area Total"
  {
  }

  lemma LabelAreaPermitida()
    ensures KeyLabel("areaPermitida") == "area Permitida"
  {
    WordsAreaPermitida();
    LabelOfTwoWords("area", 'P', "ermitida");
  }

  lemma WordsAreaPermitida()
    ensures AllLower("area") && AllLower("ermitida")
    ensures "area" + ['P'] + "ermitida" == "areaPermitida"
    ensures "area" + " " + ['P'] + "ermitida" == "area Permitida"
  {
  }

  lemma LabelTaxaOcupacao()
    ensures KeyLabel("taxaOcupacao") == "taxa Ocupacao"
  {
    WordsTaxaOcupacao();
    LabelOfTwoWords("taxa", 'O', "cupacao");
  }

  lemma WordsTaxaOcupacao()
    ensures AllLower("taxa") && AllLower("cupacao")
    ensures "taxa" + ['O'] + "cupacao" == "taxaOcupacao"
    ensures "taxa" + " " + ['O'] + "cupacao" == "taxa Ocupacao"
  {
  }

  lemma LabelCoeficienteAproveitamento()
    ensures KeyLabel("coeficienteAproveitamento") == "coeficiente Aproveitamento"
  {
    WordsCoeficienteAproveitamento();
    LabelOfTwoWords("coeficiente", 'A', "proveitamento");
  }

  lemma WordsCoeficienteAproveitamento()
    ensures AllLower("coeficiente") && AllLower("proveitamento")
    ensures "coeficiente" + ['A'] + "proveitamento" == "coeficienteAproveitamento"
    ensures "coeficiente" + " " + ['A'] + "proveitamento" == "coeficiente Aproveitamento"
  {
  }

  /** Every character is a lower-case ASCII letter. */
  predicate AllLower(s: string)
  {
    forall i :: 0 <= i < |s| ==> 'a' <= s[i] <= 'z'
  }

  /** A lower-case word followed by a capitalised word gets one space between
      them. */
  lemma LabelOfTwoWords(first: string, cap: char, tail: string)
    requires |first| > 0 && AllLower(first) && AllLower(tail)
    requires IsUpperAscii(cap)
    ensures KeyLabel(first + [cap] + tail) == first + " " + [cap] + tail
  {
    var key := first + [cap] + tail;
    SpaceBeforeTwoWords(first, cap, tail);
    forall i | 0 <= i < |key|
      ensures !IsJsWhitespace(key[i])
    {
      if i < |first| {
        assert key[i] == first[i];
      } else if i == |first| {
        assert key[i] == cap;
      } else {
        assert key[i] == tail[i - |first| - 1];
      }
    }
    assert key[0] == first[0];
    KeyLabelOfPlainKey(key);
  }

  lemma SpaceBeforeTwoWords(first: string, cap: char, tail: string)
    requires AllLower(first) && AllLower(tail)
    requires IsUpperAscii(cap)
    ensures SpaceBeforeCapitals(first + [cap] + tail) == first + " " + [cap] + tail
  {
    var word := [cap] + tail;
    assert first + [cap] + tail == first + word;
    NoCapitalsUnchanged(first);
    NoCapitalsUnchanged(tail);
    SpaceBeforeCapitalsConcat(first, word);
    assert word[0] == cap && word[1..] == tail;
    assert SpaceBeforeCapitals(word) == [' ', cap] + tail;
    assert first + ([' ', cap] + tail) == first + " " + [cap] + tail;
  }
}

/** What the parser and the pipeline promise together: the draft that is simulated is one the parser accepted. */
module SafeRuns {
  import opened Common
  import opened Calldata
  import opened DefiParser
  import opened AddressSafety
  import opened Hooks
  import opened Pipeline
  import opened PipelineGuarantees
  import opened LegacyGuarantees

  /** How the texts of a draft are read: a checksummed address, and hexadecimal digits. */
  datatype Reader = Reader(address: string -> Option<Address>, hex: string -> Option<Bytes>)

  function TextAt(d: Draft, key: string): Option<string> {
    if key in d && d[key].JString? then Some(d[key].s) else None
  }

  function DataOf(r: Reader, text: Option<string>): DataField {
    match text
    case None => NotText
    case Some(s) =>
      if s == "0x" then DataField.Nothing
      else
        match r.hex(if |s| < 2 then "" else s[2..])
        case None => NotHex
        case Some(bytes) => Blob(bytes)
  }

  function TargetOf(r: Reader, text: Option<string>): TargetField {
    match text
    case None => NotString
    case Some(s) => (match r.address(Strip(s)) case None => Malformed case Some(a) => Target(a))
  }

  /** The payload the parser finds in a draft. */
  function PayloadIn(r: Reader, d: Draft): Payload { Payload(TargetOf(r, TextAt(d, "to")), DataOf(r, TextAt(d, "data"))) }

  /** A parser: its configuration, the ABI codec, its plugins and how it reads texts. */
  datatype Parser = Parser(config: ParserConfig, codec: Codec, plugins: seq<Plugin>, reader: Reader)

  function Verdict(parser: Parser, d: Draft): Option<ParseError> {
    Checked(parser.config, parser.codec, parser.plugins, PayloadIn(parser.reader, d))
  }

  ghost predicate Safe(parser: Parser, d: Draft) {
    SafePayload(parser.config, parser.codec, parser.plugins, PayloadIn(parser.reader, d))
  }

  /** The last check of each pass is this parser. */
  ghost predicate ParsedBy(st: Stages, parser: Parser) {
    forall turn, d :: st.check(Defi, turn, d) == None <==> Verdict(parser, d) == None
  }

  /** Nothing was simulated or audited but a draft whose target, and everything the parser decodes from its
      calldata at any depth, is off the block list and, where there is an allow list, on it. */
  ghost predicate RanSafely(parser: Parser, p: Progress) {
    && (p.seen.simulated.Some? ==> Safe(parser, p.seen.simulated.value))
    && (p.seen.audited.Some? ==> Safe(parser, p.seen.audited.value))
  }

  lemma AcceptedDraftIsSafe(st: Stages, parser: Parser, turn: nat, d: Draft)
    requires ParsedBy(st, parser) && st.check(Defi, turn, d) == None
    ensures Safe(parser, d)
  {
    AcceptedPayloadIsSafe(parser.config, parser.codec, parser.plugins, PayloadIn(parser.reader, d));
  }

  /** Under a contract that holds of every run, whatever the callbacks return. */
  lemma ContractRunsSafely(e: Setup, parser: Parser, payload: Draft) returns (p: Progress)
    requires e.mode != Legacy && ParsedBy(e.stages, parser)
    ensures p == FullRun(e, payload) && RanSafely(parser, p)
  {
    p := ValidatedIsSimulated(e, payload);
    OneDraftIsSafe(e.stages, parser, p);
  }

  lemma OneDraftIsSafe(st: Stages, parser: Parser, p: Progress)
    requires ParsedBy(st, parser) && OneDraft(st, p)
    ensures RanSafely(parser, p)
  {
    if p.seen.simulated.Some? {
      AcceptedDraftIsSafe(st, parser, 1, p.draft);
    }
  }

  /** In legacy mode it holds of every run whose second pass leaves alone the draft it simulates. */
  lemma QuietLegacyRunsSafely(e: Setup, parser: Parser, payload: Draft) returns (p: Progress)
    requires e.mode == Legacy && ParsedBy(e.stages, parser)
    ensures p == FullRun(e, payload)
    ensures QuietOn(e, BeforeChecks(e, payload).draft) ==> RanSafely(parser, p)
  {
    var first, second;
    p, first, second := LegacyChain(e, payload);
    if QuietOn(e, second) && p.seen.simulated.Some? {
      QuietChainIsSafe(e, parser, p, first, second);
    }
  }

  lemma QuietChainIsSafe(e: Setup, parser: Parser, p: Progress, first: Draft, second: Draft)
    requires ParsedBy(e.stages, parser) && Chained(e, p, first, second) && QuietOn(e, second)
    ensures RanSafely(parser, p)
  {
    AcceptedDraftIsSafe(e.stages, parser, 1, second);
  }

  /** Otherwise it need not: past a parser that accepts two different drafts any unsafe one can be brought. */
  lemma LegacyRunsUnsafely(stages: Stages, parser: Parser, d0: Draft, d1: Draft, d2: Draft) returns (e: Setup, p: Progress)
    requires ParsedBy(stages, parser) && Connects(stages)
    requires PassAccepts(stages, 0, d0) && PassAccepts(stages, 1, d1) && d0 != d1 && !Safe(parser, d2)
    ensures e.mode == Legacy && e.stages == stages && p == FullRun(e, d0) && !RanSafely(parser, p)
  {
    e := TurningAtDefi(stages, d0, d1, d2);
    AcceptedDraftIsSafe(stages, parser, 0, d0);
    AcceptedDraftIsSafe(stages, parser, 1, d1);
    p := LegacyRunsUncheckedDraft(stages, d0, d1, d2);
  }
}

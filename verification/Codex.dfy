/**
 Rewriting ~/.codex/config.toml (tokenjam/cli/cmd_onboard.py).  Tables are cut out of the
 text by scans that know nothing of TOML: a cut runs from a header to the next line that
 starts with a bracket, or to the end.  All results here hold for texts of any content.
 */
module Codex {
  import opened Prelude
  import opened TextScan
  import Otlp

  const OCW_SERVER := "[mcp_servers.ocw]"
  const TJ_SERVER := "[mcp_servers.tj]"
  const OTEL := "[otel]"
  const OTEL_RESOURCE := "[otel.resource]"
  const OTLP_HTTP := "[otel.exporter.\"otlp-http\"]"
  const OTLP_HTTP_HEADERS := "[otel.exporter.\"otlp-http\".headers]"
  const OTLP_GRPC := "[otel.exporter.\"otlp-grpc\"]"
  const OTLP_GRPC_HEADERS := "[otel.exporter.\"otlp-grpc\".headers]"

  const PURGE_ORDER: seq<string> :=
    [OTLP_HTTP_HEADERS, OTLP_HTTP, OTLP_GRPC_HEADERS, OTLP_GRPC, OTEL_RESOURCE, OTEL]

  const STRIP_ORDER: seq<string> :=
    [OTEL, OTEL_RESOURCE, OTLP_HTTP, OTLP_HTTP_HEADERS, OTLP_GRPC, OTLP_GRPC_HEADERS]

  // ---------------------------------------------------------------------
  // The scans
  // ---------------------------------------------------------------------

  /** The text from the next newline-bracket on. */
  function SectionEnd(u: string): (r: string)
    ensures |r| <= |u|
  {
    if u == [] || "\n[" <= u then u else SectionEnd(u[1..])
  }

  /** Every section under header `h` cut out. */
  function Cut(h: string, t: string): string
    requires h != []
    decreases |t|
  {
    if t == [] then []
    else if h <= t then Cut(h, SectionEnd(t[|h|..]))
    else [t[0]] + Cut(h, t[1..])
  }

  function CutAll(hs: seq<string>, t: string): string
    requires forall i :: 0 <= i < |hs| ==> hs[i] != []
  {
    if hs == [] then t else CutAll(hs[1..], Cut(hs[0], t))
  }

  /** Runs of three and more newlines become two. */
  function Collapse(t: string): string {
    if t == [] then []
    else if "\n\n\n" <= t then Collapse(t[1..])
    else [t[0]] + Collapse(t[1..])
  }

  /** Stripped, and ended by one newline unless empty. */
  function Tidied(t: string): string {
    if Trim(t) == "" then "" else Trim(t) + "\n"
  }

  /** `p`, given in lower case, starts `t` in any case. */
  predicate StartsAnyCase(p: string, t: string) {
    p == "" || (t != "" && LowerChar(t[0]) == p[0] && StartsAnyCase(p[1..], t[1..]))
  }

  /** Up to the next opening bracket, a '#' and white space before "Managed by ocw". */
  predicate LegacyComment(u: string) {
    u != "" && u[0] != '['
    && ((u[0] == '#' && StartsAnyCase("managed by ocw", TrimLeft(u[1..]))) || LegacyComment(u[1..]))
  }

  predicate HasLegacyOtel(t: string) {
    t != "" && ((StartsAnyCase(OTEL, t) && LegacyComment(t[if |t| < |OTEL| then |t| else |OTEL|..]))
                || HasLegacyOtel(t[1..]))
  }

  /** `_codex_purge_legacy_ocw`. */
  function Purge(t: string): string {
    var c := Cut(OCW_SERVER, t);
    Tidied(Collapse(if HasLegacyOtel(c) then CutAll(PURGE_ORDER, c) else c))
  }

  /** `_codex_strip_otel_sections`. */
  function StripOtelTables(t: string): string {
    Trim(CutAll(STRIP_ORDER, t))
  }

  /** `_codex_apply_block` for the [otel] section. */
  function ApplyBlock(content: string, present: bool, block: string, force: bool): string {
    if present then
      if !force then content
      else
        var stripped := TrimRight(Cut(OTEL, content));
        if stripped != "" then stripped + "\n\n" + block else block
    else if Trim(content) != "" then TrimRight(content) + "\n\n" + block else block
  }

  function Find(h: string, t: string): (r: Option<nat>)
    ensures r.Some? ==> r.value + |h| <= |t| && h <= t[r.value..]
  {
    if h <= t then Some(0)
    else if t == [] then None
    else match Find(h, t[1..]) case Some(i) => Some(i + 1) case None => None
  }

  predicate CommandHere(t: string) {
    "command" <= t
    && (var u := TrimLeft(t[7..]);
        u != "" && u[0] == '=' && "\"tj\"" <= TrimLeft(u[1..]))
  }

  predicate HasTjCommand(t: string) {
    CommandHere(t) || (t != [] && HasTjCommand(t[1..]))
  }

  predicate IsOurs(section: string) {
    Occurs("Managed by tj", section) || HasTjCommand(section)
  }

  /** The part of the text that belongs to the section its start is in. */
  function SectionOf(u: string): string {
    u[..|u| - |SectionEnd(u)|]
  }

  /** The first [mcp_servers.tj] section is there and is unmistakably tj's own. */
  predicate OwnsServer(t: string) {
    match Find(TJ_SERVER, t)
    case None => false
    case Some(i) => IsOurs(TJ_SERVER + SectionOf(t[i + |TJ_SERVER|..]))
  }

  /** `_codex_strip_tj_mcp_from_content`; the flag it also returns is OwnsServer. */
  function RetireServer(t: string): string {
    if !OwnsServer(t) then t
    else
      var i := Find(TJ_SERVER, t).value;
      Tidied(Collapse(t[..i] + SectionEnd(t[i + |TJ_SERVER|..])))
  }

  /** One forced onboard; `parsed` says whether the purged file parses to something with an otel table. */
  function Rewrite(block: string, parsed: bool, content: string): string {
    RetireServer(ApplyBlock(StripOtelTables(Purge(content)), parsed, block, true))
  }

  // ---------------------------------------------------------------------
  // The block
  // ---------------------------------------------------------------------

  /** A table: its header and the lines under it. */
  function Table(h: string, body: seq<string>): string {
    h + "\n" + Unlines(body)
  }

  const MANAGED_NOTE := "# Managed by tj " + "\U{2014} do not edit this block manually"

  function HttpLines(port: nat): seq<string> {
    ["endpoint = \"http://127.0.0.1:" + Otlp.NatToString(port) + "/v1/logs\"", "protocol = \"json\"", ""]
  }

  function HeaderLines(secret: string): seq<string> {
    ["Authorization = \"Bearer " + secret + "\""]
  }

  /** `_codex_otel_toml_block`. */
  function OtelToml(port: nat, secret: string): string {
    Tables([MANAGED_NOTE, "log_user_prompt = false", ""], HttpLines(port), HeaderLines(secret))
  }

  /** The three tables of the block, with any lines in them. */
  function Tables(b1: seq<string>, b2: seq<string>, b3: seq<string>): string {
    Table(OTEL, b1) + (Table(OTLP_HTTP, b2) + Table(OTLP_HTTP_HEADERS, b3))
  }
}

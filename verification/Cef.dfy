// ArcSight Common Event Format: the printer for one event.
module Cef {
  import opened Events
  import opened Text

  /** The three ReplaceAll passes. */
  function EscapeCEFValue(val: string): string {
    ReplaceChar(ReplaceChar(ReplaceChar(val, '\\', "\\\\"), '=', "\\="), '|', "\\|")
  }

  function CefSeverity(severity: string): int {
    if severity == "CRITICAL" then 10
    else if severity == "HIGH" then 8
    else if severity == "MEDIUM" then 5
    else if severity == "LOW" then 3
    else 1
  }

  /** Go's integer division truncates towards zero. */
  function Quotient(a: int, b: int): int
    requires b > 0
  {
    if a >= 0 then a / b else -(-a / b)
  }

  /** Milliseconds since the epoch; UnixNano wraps outside the int64 range. */
  function Millis(t: Time): int {
    Quotient(WrapInt64(t), 1_000_000)
  }

  function TechniqueID(ev: Event): string {
    if ev.mitre.Some? then ev.mitre.value.techniqueID else "T1595"
  }

  function TechniqueName(ev: Event): string {
    if ev.mitre.Some? then ev.mitre.value.techniqueName else "Active Scanning"
  }

  function FixedExtensions(ev: Event): seq<string> {
    [ "src=" + ev.remoteIP,
      "spt=" + Itoa(ev.remotePort),
      "dpt=" + Itoa(ev.localPort),
      "app=" + ev.decoyName,
      "act=" + EscapeCEFValue(ev.action),
      "rt=" + Itoa(Millis(ev.timestamp)),
      "cs1=" + TechniqueID(ev),
      "cs1Label=MitreTechniqueID",
      "cs2=" + EscapeCEFValue(TechniqueName(ev)),
      "cs2Label=MitreTechniqueName",
      "cn1=" + Itoa(ev.threatScore),
      "cn1Label=ThreatScore"]
  }

  function Extensions(ev: Event): seq<string> {
    FixedExtensions(ev)
    + (if ev.username != "" then ["suser=" + EscapeCEFValue(ev.username)] else [])
    + (if ev.command != "" then ["msg=" + EscapeCEFValue(ev.command)] else [])
  }

  /** The line FormatCEF prints; the device host it is given is never used. */
  function FormatCEF(ev: Event): string {
    "CEF:0|Haiagari|Shinkiro|1.0.0|" + ev.decoyName + "|" + EscapeCEFValue(ev.action) + "|" +
    Itoa(CefSeverity(ev.severity)) + "|" + Join(Extensions(ev), " ")
  }
}

// Firewall rule text for a list of addresses.
module Defense {
  import opened Basics

  const FORMAT_IPTABLES := "iptables"
  const FORMAT_NFTABLES := "nftables"
  const FORMAT_CIDR := "cidr"

  const COMMENT := "# Generated by " + ("Shinkiro (Active " + "Defense Engine)")

  // The lines of an nft script, their texts in pieces.

  function TableLine(): string {
    "add table inet " + "shinkiro_filter"
  }

  function SetLine(): string {
    "add set inet " + ("shinkiro_filter " + ("blackhole { " + "type ipv4_addr; }"))
  }

  function ElementLine(ip: string): string {
    "add element inet " + ("shinkiro_filter " + ("blackhole { " + (ip + " }")))
  }

  function DropLine(): string {
    "add rule inet " + ("shinkiro_filter " + ("input ip saddr " + "@blackhole drop"))
  }

  function Header(format: string): string {
    if format == FORMAT_IPTABLES then COMMENT + "\n"
    else if format == FORMAT_NFTABLES then TableLine() + "\n" + (SetLine() + "\n")
    else ""
  }

  function Line(ip: string, format: string): string {
    if format == FORMAT_IPTABLES then "iptables -A INPUT -s " + ip + " -j DROP\n"
    else if format == FORMAT_NFTABLES then ElementLine(ip) + "\n"
    else if format == FORMAT_CIDR then ip + "/32\n"
    else ip + "\n"
  }

  function Footer(format: string): string {
    if format == FORMAT_NFTABLES then DropLine() + "\n" else ""
  }

  function Lines(ips: seq<string>, format: string): string {
    if ips == [] then "" else Lines(ips[..|ips| - 1], format) + Line(ips[|ips| - 1], format)
  }

  /** The text GenerateRules builds. */
  function Rules(ips: seq<string>, format: string): string {
    Header(format) + Lines(ips, format) + Footer(format)
  }

  lemma {:induction false} LinesGrow(ips: seq<string>, format: string, i: nat)
    requires i < |ips|
    ensures Lines(ips[..i + 1], format) == Lines(ips[..i], format) + Line(ips[i], format)
  {
    assert ips[..i + 1][..i] == ips[..i];
  }

  method GenerateRules(ips: seq<string>, format: string) returns (sb: string)
    ensures sb == Rules(ips, format)
  {
    var header := Header(format);
    sb := header;
    for i := 0 to |ips|
      invariant sb == header + Lines(ips[..i], format)
    {
      LinesGrow(ips, format, i);
      ConcatAssociative(header, Lines(ips[..i], format), Line(ips[i], format));
      sb := sb + Line(ips[i], format);
    }
    assert ips[..|ips|] == ips;
    sb := sb + Footer(format);
  }
}

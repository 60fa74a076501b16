// A reader of nft scripts, independent of the printer, and what the printed scripts do to a ruleset.
module Nftables {
  import opened Basics
  import opened Text

  /** A table, and what it holds: sets of addresses, chains, and the rules dropping sources found in a set. */
  datatype Ruleset = Ruleset(
    tables: set<string>,
    chains: set<(string, string)>,             // table, chain
    sets: map<(string, string), set<string>>,  // table, set
    drops: set<(string, string, string)>)      // table, chain, set

  /** One statement, by its words. */
  datatype Statement =
    | AddTable(table: string)
    | AddSet(table: string, name: string)
    | AddElement(table: string, name: string, address: string)
    | DeleteElement(table: string, name: string, address: string)
    | AddDrop(table: string, chain: string, name: string)

  function Statement1(ws: seq<string>): Option<Statement> {
    if |ws| < 4 || ws[2] != "inet" then None
    else if |ws| == 4 && ws[..2] == ["add", "table"] then Some(AddTable(ws[3]))
    else if |ws| == 9 && ws[..2] == ["add", "set"] && ws[5..] == ["{", "type", "ipv4_addr;", "}"] then
      Some(AddSet(ws[3], ws[4]))
    else if |ws| == 8 && ws[..2] == ["add", "element"] && ws[5] == "{" && ws[7] == "}" then
      Some(AddElement(ws[3], ws[4], ws[6]))
    else if |ws| == 8 && ws[..2] == ["delete", "element"] && ws[5] == "{" && ws[7] == "}" then
      Some(DeleteElement(ws[3], ws[4], ws[6]))
    else if |ws| == 9 && ws[..2] == ["add", "rule"] && ws[5] == "ip" && ws[6] == "saddr" && ws[8] == "drop"
         && ws[7] != "" && ws[7][0] == '@' then
      Some(AddDrop(ws[3], ws[4], ws[7][1..]))
    else None
  }

  /** A statement succeeds only if what it refers to is there. */
  function Perform(rs: Ruleset, st: Statement): Option<Ruleset> {
    match st
    case AddTable(t) => Some(rs.(tables := rs.tables + {t}))
    case AddSet(t, n) =>
      if t !in rs.tables then None
      else if (t, n) in rs.sets then Some(rs) else Some(rs.(sets := rs.sets[(t, n) := {}]))
    case AddElement(t, n, a) =>
      if (t, n) !in rs.sets then None else Some(rs.(sets := rs.sets[(t, n) := rs.sets[(t, n)] + {a}]))
    case DeleteElement(t, n, a) =>
      if (t, n) !in rs.sets || a !in rs.sets[(t, n)] then None
      else Some(rs.(sets := rs.sets[(t, n) := rs.sets[(t, n)] - {a}]))
    case AddDrop(t, c, n) =>
      if (t, c) !in rs.chains || (t, n) !in rs.sets then None else Some(rs.(drops := rs.drops + {(t, c, n)}))
  }

  /** nft -f: the statements of the lines in order, all of them or nothing. Blank lines ask for nothing. */
  function Load(rs: Ruleset, lines: seq<string>): Option<Ruleset>
    decreases |lines|
  {
    if lines == [] then Some(rs)
    else if Fields(lines[0]) == [] then Load(rs, lines[1..])
    else
      match Statement1(Fields(lines[0]))
      case None => None
      case Some(st) =>
        match Perform(rs, st)
        case None => None
        case Some(next) => Load(next, lines[1..])
  }

  function LoadScript(rs: Ruleset, script: string): Option<Ruleset> {
    Load(rs, Split(script, '\n'))
  }

  // ---------- reading line by line ----------

  lemma {:induction false} LoadLine(rs: Ruleset, line: string, rest: string)
    requires '\n' !in line
    ensures LoadScript(rs, line + ['\n'] + rest) ==
      if Fields(line) == [] then LoadScript(rs, rest)
      else match Statement1(Fields(line))
        case None => None
        case Some(st) => match Perform(rs, st) case None => None case Some(next) => LoadScript(next, rest)
  {
    SplitAtSeparator(line, '\n', rest);
    var lines := Split(line + ['\n'] + rest, '\n');
    assert lines == [line] + Split(rest, '\n');
    assert lines[1..] == Split(rest, '\n');
    hide Statement1, Perform, Fields, Split;
  }

  lemma {:induction false} LoadNothing(rs: Ruleset)
    ensures LoadScript(rs, "") == Some(rs)
  {
    assert Split("", '\n') == [""];
    assert Fields("") == [];
    assert [""][1..] == [];
  }

  /** A line of words separated by single spaces reads as those words, and is one line. */
  lemma {:induction false} LineWords(ws: seq<string>)
    requires AllWords(ws)
    ensures Fields(Join(ws, " ")) == ws && '\n' !in Join(ws, " ")
  {
    FieldsOfJoin(ws);
    OneLine(ws);
  }

  lemma {:induction false} OneLine(ws: seq<string>)
    requires AllWords(ws)
    ensures '\n' !in Join(ws, " ")
  {
    if |ws| > 1 {
      OneLine(ws[1..]);
      assert '\n' !in ws[0] by {
        assert IsWord(ws[0]);
      }
    } else if |ws| == 1 {
      assert IsWord(ws[0]);
    }
  }
}

/** A parsed jen.config: section to key to value, as configparser holds it once read. */
module IniFile {
  import opened Outcomes

  type Parser = map<string, map<string, string>>

  function Value(p: Parser, section: string, key: string): Option<string> {
    if section in p && key in p[section] then Some(p[section][key]) else None
  }

  /** parser.set, the section added when it is not there. */
  function Set(p: Parser, section: string, key: string, value: string): Parser {
    p[section := (if section in p then p[section] else map[])[key := value]]
  }

  /** parser.get(section, key, fallback=...) */
  function Get(p: Parser, section: string, key: string, fallback: string): string {
    match Value(p, section, key)
    case Some(v) => v
    case None => fallback
  }
}

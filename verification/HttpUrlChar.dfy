/** The request-target automaton shared by the streaming parser and the URL splitter. */
module HttpUrlChar {
  import opened HttpTypes

  /** parse_url_char in strict mode; Start(Dead) means the character is not allowed here. */
  function ParseUrlChar(s: State, ch: byte): State {
    if ch in {' ', CR, LF, TAB, FORM_FEED} then Start(Dead)
    else match s
      case RequestStart(ReqSpacesBeforeUrl) =>
        if ch == '/' || ch == '*' then Target(ReqPath) else if IsAlpha(ch) then Target(ReqSchema) else Start(Dead)
      case Target(ReqSchema) =>
        if IsAlpha(ch) then Target(ReqSchema) else if ch == ':' then Target(ReqSchemaSlash) else Start(Dead)
      case Target(ReqSchemaSlash) =>
        if ch == '/' then Target(ReqSchemaSlashSlash) else Start(Dead)
      case Target(ReqSchemaSlashSlash) =>
        if ch == '/' then Target(ReqServerStart) else Start(Dead)
      case Target(ReqServerWithAt) =>
        if ch == '@' then Start(Dead) else ParseServerChar(ch)
      case Target(ReqServerStart) => ParseServerChar(ch)
      case Target(ReqServer) => ParseServerChar(ch)
      case Target(ReqPath) =>
        if IsUrlChar(ch) then Target(ReqPath)
        else if ch == '?' then Target(ReqQueryStringStart)
        else if ch == '#' then Target(ReqFragmentStart)
        else Start(Dead)
      case Target(ReqQueryStringStart) => ParseQueryChar(ch)
      case Target(ReqQueryString) => ParseQueryChar(ch)
      case Target(ReqFragmentStart) =>
        if IsUrlChar(ch) || ch == '?' then Target(ReqFragment)
        else if ch == '#' then Target(ReqFragmentStart) else Start(Dead)
      case Target(ReqFragment) =>
        if IsUrlChar(ch) || ch == '?' || ch == '#' then Target(ReqFragment) else Start(Dead)
      case _ => Start(Dead)
  }

  function ParseServerChar(ch: byte): State {
    if ch == '/' then Target(ReqPath)
    else if ch == '?' then Target(ReqQueryStringStart)
    else if ch == '@' then Target(ReqServerWithAt)
    else if IsUserinfoChar(ch) || ch == '[' || ch == ']' then Target(ReqServer)
    else Start(Dead)
  }

  function ParseQueryChar(ch: byte): State {
    if IsUrlChar(ch) || ch == '?' then Target(ReqQueryString)
    else if ch == '#' then Target(ReqFragmentStart)
    else Start(Dead)
  }
}

/**
 * Command Resolver: maps the command-line token to a transfer direction, a control
 * selector and a command word. As the tool is written, only the token's first
 * character, and for 'o' its second one, take part in the decision.
 */
module CommandResolver {
  import opened XuTypes

  /** What the token asks for: a GET of `length` bytes, a SET of one word, or nothing. */
  datatype Resolved =
    | Get(selector: byte, length: nat)
    | Set(selector: byte, payload: Payload)
    | Unknown

  /** Character `i` of a C string; reading at its length gives the terminating NUL. */
  function CharAt(arg: Arg, i: nat): char
  {
    if i < |arg| then arg[i] else '\0'
  }

  /**
   * The dispatch on the first (and sometimes second) character. The ensures clauses
   * state the wire-format invariant: a GET is always the 60-byte version read, a SET
   * on the loader selector always carries the loader or reboot word, a SET on the
   * PTZ selector one of the three PTZ words or the unassigned word. They then give
   * the entry each leading character selects, for every token.
   */
  function Resolve(arg: Arg): (r: Resolved)
    ensures r.Get? <==> CharAt(arg, 0) == 'v'
    ensures r.Get? ==> r.selector == VERSION_SELECTOR && r.length == VERSION_LENGTH
    ensures r.Unknown? <==> CharAt(arg, 0) !in {'v', 'o', 'p', 'l', 'r'}
    ensures r.Set? ==> r.selector in {PTZ_SELECTOR, LOADER_SELECTOR}
    ensures r.Set? ==> (r.selector == PTZ_SELECTOR <==> CharAt(arg, 0) in {'o', 'p'})
    ensures r.Set? && r.selector == LOADER_SELECTOR ==>
      r.payload in {Word(LOADER_WORD), Word(REBOOT_WORD)}
    ensures r.Set? && r.selector == PTZ_SELECTOR ==>
      r.payload in {Word(PTZ_OFF_WORD), Word(PTZ_ON_WORD), Word(PTZ_PAUSED_WORD), Unspecified}
    ensures r.Set? && r.payload == Unspecified <==>
      CharAt(arg, 0) == 'o' && CharAt(arg, 1) != 'n' && CharAt(arg, 1) != 'f'
    ensures CharAt(arg, 0) == 'p' ==> r == Set(PTZ_SELECTOR, Word(PTZ_PAUSED_WORD))
    ensures CharAt(arg, 0) == 'o' && CharAt(arg, 1) == 'n' ==> r == Set(PTZ_SELECTOR, Word(PTZ_ON_WORD))
    ensures CharAt(arg, 0) == 'o' && CharAt(arg, 1) == 'f' ==> r == Set(PTZ_SELECTOR, Word(PTZ_OFF_WORD))
    ensures CharAt(arg, 0) == 'l' ==> r == Set(LOADER_SELECTOR, Word(LOADER_WORD))
    ensures CharAt(arg, 0) == 'r' ==> r == Set(LOADER_SELECTOR, Word(REBOOT_WORD))
  {
    var first, second := CharAt(arg, 0), CharAt(arg, 1);
    if first == 'v' then
      Get(VERSION_SELECTOR, VERSION_LENGTH)
    else if first == 'o' || first == 'p' then
      Set(PTZ_SELECTOR,
          if first == 'p' then Word(PTZ_PAUSED_WORD)
          else if second == 'n' then Word(PTZ_ON_WORD)
          else if second == 'f' then Word(PTZ_OFF_WORD)
          else Unspecified)
    else if first == 'l' then
      Set(LOADER_SELECTOR, Word(LOADER_WORD))
    else if first == 'r' then
      Set(LOADER_SELECTOR, Word(REBOOT_WORD))
    else
      Unknown
  }

  /** The six tokens the usage text documents land on their intended entries. */
  lemma DocumentedTokens()
    ensures Resolve("version") == Get(VERSION_SELECTOR, VERSION_LENGTH)
    ensures Resolve("loader") == Set(LOADER_SELECTOR, Word(LOADER_WORD))
    ensures Resolve("reboot") == Set(LOADER_SELECTOR, Word(REBOOT_WORD))
    ensures Resolve("on") == Set(PTZ_SELECTOR, Word(PTZ_ON_WORD))
    ensures Resolve("off") == Set(PTZ_SELECTOR, Word(PTZ_OFF_WORD))
    ensures Resolve("paused") == Set(PTZ_SELECTOR, Word(PTZ_PAUSED_WORD))
  {
  }

  /** Two tokens that agree on their first two characters resolve alike. */
  lemma TwoCharactersDecide(a: Arg, b: Arg)
    requires CharAt(a, 0) == CharAt(b, 0) && CharAt(a, 1) == CharAt(b, 1)
    ensures Resolve(a) == Resolve(b)
  {
  }

  /**
   * Consequences of the prefix dispatch: abbreviations and unrelated words that
   * share a documented token's leading characters behave as that token.
   */
  lemma PrefixCollisions()
    ensures Resolve("p") == Resolve("pxyz") == Resolve("paused")
    ensures Resolve("verbose") == Resolve("version")
    ensures Resolve("onward") == Resolve("on")
    ensures Resolve("often") == Resolve("off")
    ensures Resolve("l") == Resolve("loader") && Resolve("r") == Resolve("reboot")
  {
  }

  /**
   * Tokens outside the documented set that still reach a transfer or the usage
   * text: a bare "o" selects the PTZ control with an unassigned word.
   */
  lemma UndocumentedTokens()
    ensures Resolve("o") == Resolve("ox") == Set(PTZ_SELECTOR, Unspecified)
    ensures Resolve("") == Resolve("zzz") == Resolve("frobnicate") == Unknown
  {
  }
}

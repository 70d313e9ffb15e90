/**
 * The plain logic of the script embedded in the page server.js serves:
 * the class-name escaper, the username fallback on load, the send guard of
 * the message form and the rename rule of the "Change Name" button. The
 * browser's `localStorage` and `prompt` are inputs: a stored or typed value,
 * `None` for `null`.
 */
module PageScript {
  import opened Wrappers
  import opened JsString
  import opened ChatRoom
  import opened JsValue

  /**
   * A `chat message` payload as the page emits it: `{user, text}` from the
   * form (no `system` field: `None`) or `{user, text, system: true}` for a
   * rename notice.
   */
  datatype Payload = Payload(user: JsStr, text: JsStr, system: Option<bool>)

  /** A JavaScript `||` operand that is a string or `null`: truthy when present and non-empty. */
  predicate Truthy(v: Option<JsStr>) {
    v.Some? && v.value != []
  }

  // ---------------------------------------------------------------- cssEscape

  /** The units the pattern `[^a-zA-Z0-9_-]` does not match. */
  predicate IsClassNameUnit(u: CodeUnit) {
    || 'a' as int <= u <= 'z' as int
    || 'A' as int <= u <= 'Z' as int
    || '0' as int <= u <= '9' as int
    || u == '_' as int
    || u == '-' as int
  }

  const Underscore: CodeUnit := '_' as int

  predicate IsClassName(s: JsStr) {
    forall i :: 0 <= i < |s| ==> IsClassNameUnit(s[i])
  }

  /**
   * `str.replace(/[^a-zA-Z0-9_-]/g, "_")`: without the `u` flag the pattern
   * matches one code unit at a time, and each match becomes one `_`.
   */
  function CssEscape(s: JsStr): (r: JsStr)
    ensures |r| == |s|
    ensures IsClassName(r)
    ensures forall i :: 0 <= i < |s| ==> r[i] == if IsClassNameUnit(s[i]) then s[i] else Underscore
  {
    if s == [] then []
    else [if IsClassNameUnit(s[0]) then s[0] else Underscore] + CssEscape(s[1..])
  }

  /** The escaper changes a string exactly when it holds a unit outside `[a-zA-Z0-9_-]`. */
  lemma CssEscapeFixesExactlyClassNames(s: JsStr)
    ensures CssEscape(s) == s <==> IsClassName(s)
  {
  }

  /** Escaping twice is escaping once. */
  lemma CssEscapeIdempotent(s: JsStr)
    ensures CssEscape(CssEscape(s)) == CssEscape(s)
  {
  }

  /** A character outside the Basic Multilingual Plane is two code units and becomes `__`. */
  lemma CssEscapeAstral(c: char)
    requires c as int >= 0x1_0000
    ensures CssEscape(EncodeChar(c)) == [Underscore, Underscore]
  {
  }

  // ------------------------------------------------------- username fallback

  const Anonymous: JsStr := BmpUnits("Anonymous")

  /**
   * `localStorage.getItem("username") || prompt(...) || "Anonymous"`: the
   * first non-empty of the stored value and the typed answer, otherwise
   * "Anonymous".
   */
  function InitialUsername(stored: Option<JsStr>, answer: Option<JsStr>): (r: JsStr)
    ensures r != []
    ensures Truthy(stored) ==> r == stored.value
    ensures !Truthy(stored) && Truthy(answer) ==> r == answer.value
    ensures !Truthy(stored) && !Truthy(answer) ==> r == Anonymous
  {
    if Truthy(stored) then stored.value
    else if Truthy(answer) then answer.value
    else Anonymous
  }

  /**
   * The chosen name is written back to `localStorage`; on the next load it
   * is found there and kept, whatever is typed at the prompt.
   */
  lemma StoredUsernameIsKept(stored: Option<JsStr>, answer: Option<JsStr>, later: Option<JsStr>)
    ensures var u := InitialUsername(stored, answer);
            InitialUsername(Some(u), later) == u
  {
  }

  // ---------------------------------------------------------------- send guard

  /** The page after a form submit: what was emitted, if anything, and what the input box holds. */
  datatype Submission = Submission(emitted: Option<Payload>, input: JsStr)

  /**
   * The form's submit handler: if `input.value.trim()` is non-empty, emit
   * `{user: username, text: input.value}` with the text untrimmed and clear
   * the box; otherwise do nothing.
   */
  function Submit(username: JsStr, input: JsStr): (r: Submission)
    ensures r.emitted.Some? <==> !AllWhitespace(input)
    ensures r.emitted.Some? ==> r.emitted.value == Payload(username, input, None) && r.input == []
    ensures r.emitted.None? ==> r.input == input
  {
    if Trim(input) != [] then Submission(Some(Payload(username, input, None)), [])
    else Submission(None, input)
  }

  // --------------------------------------------------------------- rename rule

  const SystemUser: JsStr := BmpUnits("System")
  const ChangedUsernameTo: JsStr := BmpUnits(" changed username to ")

  /** The page after the "Change Name" button: its username and what was emitted, if anything. */
  datatype Renaming = Renaming(username: JsStr, emitted: Option<Payload>)

  /**
   * The click handler: the answer to the prompt is taken only when it is
   * non-empty and differs from the current name; then the name changes and
   * a system notice "<old> changed username to <new>" is emitted.
   */
  function Rename(username: JsStr, answer: Option<JsStr>): (r: Renaming)
    ensures r.emitted.Some? <==> Truthy(answer) && answer.value != username
    ensures r.username == if r.emitted.Some? then answer.value else username
    ensures r.emitted.Some? ==>
              r.emitted.value == Payload(SystemUser, username + ChangedUsernameTo + answer.value, Some(true))
  {
    if Truthy(answer) && answer.value != username then
      Renaming(answer.value, Some(Payload(SystemUser, username + ChangedUsernameTo + answer.value, Some(true))))
    else
      Renaming(username, None)
  }

  /** Giving the same answer again changes nothing and emits nothing. */
  lemma RenameSettles(username: JsStr, answer: Option<JsStr>)
    ensures var u := Rename(username, answer).username;
            Rename(u, answer) == Renaming(u, None)
  {
  }

  /** A non-empty username stays non-empty; with InitialUsername, the page never has an empty name. */
  lemma RenameKeepsUsernameNonEmpty(username: JsStr, answer: Option<JsStr>)
    requires username != []
    ensures Rename(username, answer).username != []
  {
  }

  /** A notice goes out exactly when the name actually changes. */
  lemma RenameEmitsIffNameChanges(username: JsStr, answer: Option<JsStr>)
    ensures Rename(username, answer).emitted.Some? <==> Rename(username, answer).username != username
  {
  }

  // ------------------------------------------------------ rendering a payload

  /**
   * `addMessage(msg.user, msg.text, msg.system)` completes without throwing.
   * Reading a property of `null` throws. A system notice (truthy `system`)
   * assigns `text` to `textContent`; any other payload passes `user` to
   * `cssEscape`, whose `str.replace` exists only on strings, and appends
   * `": " + text`. Both convert `text` to a string, which throws when the
   * conversion does. A primitive or an array has no `user`, `text` or
   * `system` property, so it reaches `cssEscape(undefined)` and throws.
   */
  predicate Renders(v: Json) {
    match v
    case Object(user, text, system, _) =>
      (JsTruthy(system) || (user.Some? && user.value.Str?)) && PropertyConverts(text)
    case _ => false
  }

  /** The payload as the page serialises it for `socket.emit`; a missing `system` is left out. */
  function Encode(p: Payload): Json {
    Object(Some(Str(p.user)), Some(Str(p.text)), if p.system.Some? then Some(Bool(p.system.value)) else None, false)
  }

  /** Every payload the page itself sends renders on every page. */
  lemma PagePayloadsRender(p: Payload)
    ensures Renders(Encode(p))
  {
  }

  /** A payload whose `text` cannot be converted to a string never renders, whatever its `user` and `system`. */
  lemma UnconvertibleTextDoesNotRender(user: Option<Json>, text: Json, system: Option<Json>, own: bool)
    requires !ConvertsToString(text)
    ensures !Renders(Object(user, Some(text), system, own))
  {
  }

  /**
   * A replayed history stops at the first payload that does not render:
   * `msgs.forEach` is cut short by the exception, so the client lists only
   * what came before it.
   */
  lemma ReplayStopsAtUnrenderable(a: Json, x: Json, b: Json)
    requires Renders(a) && !Renders(x)
    ensures Displayed(Renders, [LoadMessages([a, x, b])]) == [a]
  {
    var es := [LoadMessages([a, x, b])];
    assert es[|es| - 1] == LoadMessages([a, x, b]);
    assert [a, x, b][1..] == [x, b];
    assert RenderedPrefix(Renders, [x, b]) == [];
    assert RenderedPrefix(Renders, [a, x, b]) == [a];
  }
}

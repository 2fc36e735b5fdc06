/** The ownership namespace of runtime session ids. */
module SessionIds {
  import opened Wrappers

  const Prefix: string := "erp-user-"

  predicate Digit(c: char) {
    '0' <= c <= '9'
  }

  predicate HexDigit(c: char) {
    '0' <= c <= '9' || 'a' <= c <= 'f'
  }

  /** `[1-9][0-9]*` */
  predicate OwnerText(s: string) {
    s != "" && s[0] != '0' && forall c <- s :: Digit(c)
  }

  /** `[0-9a-f]{32}` */
  predicate ConversationText(s: string) {
    |s| == 32 && forall c <- s :: HexDigit(c)
  }

  /** The pattern, with its two groups. */
  predicate Follows(id: string, owner: string, conversation: string) {
    id == "erp-user-" + owner + "-" + conversation && OwnerText(owner) && ConversationText(conversation)
  }

  /** build_runtime_session_id() for a stripped user id and a random conversation id. */
  function Build(owner: string, conversation: string): (r: Option<string>)
    requires ConversationText(conversation)
    ensures r.Some? <==> OwnerText(owner) && |owner| <= 58
    ensures r.Some? ==> Follows(r.value, owner, conversation) && 33 <= |r.value| <= 100
  {
    if !OwnerText(owner) then None
    else
      var id := Prefix + owner + "-" + conversation;
      if |id| > 100 then None else Some(id)
  }

  /** parse_runtime_session_owner(): the conversation id has a fixed length, so it
      is read from the end. */
  function ParseOwner(id: string): Option<string> {
    if !(33 <= |id| <= 100) || |id| < 43 then None
    else
      var owner, conversation := id[9..|id| - 33], id[|id| - 32..];
      if id[..9] == Prefix && id[|id| - 33] == '-' && OwnerText(owner) && ConversationText(conversation)
      then Some(owner) else None
  }

  /** The parser accepts exactly the ids of the pattern within the length limits,
      and there is only one way to read each. */
  lemma ParsesThePattern(id: string, owner: string)
    ensures ParseOwner(id) == Some(owner) <==> |id| <= 100 && exists conversation :: Follows(id, owner, conversation)
  {
    if ParseOwner(id) == Some(owner) {
      var conversation := id[|id| - 32..];
      assert id == Prefix + owner + "-" + conversation;
      assert Follows(id, owner, conversation);
    }
    if conversation :| Follows(id, owner, conversation) && |id| <= 100 {
      assert id[9..|id| - 33] == owner;
      assert id[|id| - 32..] == conversation;
      assert id[..9] == Prefix;
      assert id[|id| - 33] == '-';
    }
  }

  /** Parsing a built session id gives back the user id. */
  lemma BuildThenParse(owner: string, conversation: string)
    requires ConversationText(conversation)
    ensures Build(owner, conversation).Some? ==> ParseOwner(Build(owner, conversation).value) == Some(owner)
  {
    if Build(owner, conversation).Some? {
      ParsesThePattern(Build(owner, conversation).value, owner);
    }
  }
}

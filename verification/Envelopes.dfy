/** Messages, handles and capability tokens, as the actor package passes them around. */
module Envelopes {

  datatype Option<+T> = None | Some(value: T)

  /** What identifies a token within a capability context. */
  datatype TokenId = TokenId(subject: string, issuer: string, nonce: string)

  datatype Token = Token(id: TokenId, expire: nat) {
    predicate Expired(now: nat) {
      expire < now
    }
  }

  datatype Handle = Handle(id: string, did: string, host: string, inbox: string) {
    predicate Empty() {
      id == "" && did == "" && host == "" && inbox == ""
    }
  }

  /** `capability` is the token list in the envelope, or None when its bytes do not decode
      (or are too long) to a token list. `content` stands for nonce, body and signature bytes. */
  datatype Envelope = Envelope(
    to: Handle,
    from: Handle,
    behavior: string,
    topic: string,
    expire: nat,
    capability: Option<seq<Token>>,
    content: string)
  {
    predicate IsBroadcast() {
      to.Empty() && topic != ""
    }

    predicate IsPublic() {
      "/public/" <= behavior
    }

    /** Broadcasts are never counted as public, whatever their behaviour is called. */
    predicate CountsAsPublic() {
      !IsBroadcast() && IsPublic()
    }

    predicate OnTopic(t: string) {
      IsBroadcast() && topic == t
    }

    function Tokens(): (ts: seq<Token>)
    {
      if capability.Some? then capability.value else []
    }

    function TokenIds(): set<TokenId> {
      set t | t in Tokens() :: t.id
    }
  }
}

/** The server's flash-message store for one request: the messages of the
    session, and the identifiers the rendered components require on the
    client, which select what is shipped for hydration. */
module FlashMessages {
  import opened Collections

  /** A flash message value: text (falsy when empty) or a structured value
      (an object, always truthy). */
  datatype FlashMessage = Text(text: string) | Structured(fields: map<string, string>)

  predicate Truthy(m: FlashMessage) {
    m.Structured? || m.text != ""
  }

  /** `flashMessages[identifier]` is truthy. */
  predicate Present(messages: map<string, FlashMessage>, identifier: string) {
    identifier in messages && Truthy(messages[identifier])
  }

  /** `Set.prototype.add`: the set's elements in insertion order. */
  function SetAdd(s: seq<string>, x: string): (r: seq<string>)
    ensures NoDups(s) ==> NoDups(r)
    ensures forall y :: y in r <==> y in s || y == x
  {
    if x in s then s else s + [x]
  }

  /** Adding an element twice adds it once. */
  lemma SetAddIdempotent(s: seq<string>, x: string)
    ensures SetAdd(SetAdd(s, x), x) == SetAdd(s, x)
  {
  }

  class FlashMessagesManager {
    var flashMessages: map<string, FlashMessage>

    /** `flashMessagesRequiredForHydration`, in insertion order. */
    var required: seq<string>

    ghost predicate Valid()
      reads this
    {
      NoDups(required)
    }

    constructor()
      ensures Valid() && flashMessages == map[] && required == []
    {
      flashMessages := map[];
      required := [];
    }

    /** Replaces the messages wholesale; the required identifiers stay,
        even those that no longer have a message. */
    method SetFlashMessages(messages: map<string, FlashMessage>)
      requires Valid()
      modifies this
      ensures Valid() && flashMessages == messages && required == old(required)
    {
      flashMessages := messages;
    }

    /** With `all`, every message; otherwise the required identifiers whose
        message is truthy, and nothing else. */
    method GetFlashMessages(all: bool) returns (r: map<string, FlashMessage>)
      ensures all ==> r == flashMessages
      ensures !all ==> forall id :: id in r <==> id in required && Present(flashMessages, id)
      ensures !all ==> forall id :: id in r ==> id in flashMessages && r[id] == flashMessages[id]
    {
      if all {
        return flashMessages;
      }
      r := map[];
      for i := 0 to |required|
        invariant forall id :: id in r <==> id in required[..i] && Present(flashMessages, id)
        invariant forall id :: id in r ==> id in flashMessages && r[id] == flashMessages[id]
      {
        var identifier := required[i];
        if identifier in flashMessages && Truthy(flashMessages[identifier]) {
          r := r[identifier := flashMessages[identifier]];
        }
        assert forall id :: id in required[..i + 1] <==> id in required[..i] || id == identifier;
      }
      assert required[..|required|] == required;
    }

    /** Records an identifier for hydration, but only when its message is
        truthy; recording it again changes nothing. */
    method RequireFlashMessageForHydration(identifier: string)
      requires Valid()
      modifies this
      ensures Valid() && flashMessages == old(flashMessages)
      ensures required == if Present(flashMessages, identifier) then SetAdd(old(required), identifier) else old(required)
    {
      if !(identifier in flashMessages && Truthy(flashMessages[identifier])) {
        return;
      }
      required := SetAdd(required, identifier);
    }

    /** Forgets the required identifiers and keeps the messages. */
    method PrepareForNewRequest()
      requires Valid()
      modifies this
      ensures Valid() && required == [] && flashMessages == old(flashMessages)
    {
      required := [];
    }
  }
}

/**
 The per-session conversation store: the conversation in use and the ordered
 archive of the others, with the four sidebar operations (new, select, delete,
 rename) and the submission of a question.
 */
module Sessions {
  import opened Strings
  import opened Responses

  datatype Chat = Chat(name: string, messages: seq<Message>)

  /** The positional label `f"Chat {n}"`. */
  function ChatName(n: nat): (s: string)
    ensures "Chat " <= s && s[5..] == Decimal(n)
  {
    "Chat " + Decimal(n)
  }

  lemma ChatNameInjective(a: nat, b: nat)
    requires ChatName(a) == ChatName(b)
    ensures a == b
  {
    assert ChatName(a)[5..] == ChatName(b)[5..];
    DecimalInjective(a, b);
  }

  /** `list.pop(i)` as a value: the sequence without its entry `i`. */
  function RemoveAt<T>(s: seq<T>, i: nat): (r: seq<T>)
    requires i < |s|
    ensures |r| == |s| - 1
    ensures forall k :: 0 <= k < i ==> r[k] == s[k]
    ensures forall k :: i <= k < |r| ==> r[k] == s[k + 1]
  {
    s[..i] + s[i + 1..]
  }

  /** Nothing is lost by a pop: the removed entry and the rest make up the original. */
  lemma RemoveAtMultiset<T>(s: seq<T>, i: nat)
    requires i < |s|
    ensures multiset(RemoveAt(s, i)) + multiset{s[i]} == multiset(s)
  {
    assert s == s[..i] + [s[i]] + s[i + 1..];
  }

  /** The archive after deletion: every entry keeps its messages and is named by
      its position, whatever it was called before. */
  function Renumbered(chats: seq<Chat>): (r: seq<Chat>)
    ensures |r| == |chats|
    ensures forall k :: 0 <= k < |r| ==> r[k].messages == chats[k].messages
  {
    seq(|chats|, k requires 0 <= k < |chats| => Chat(ChatName(k + 1), chats[k].messages))
  }

  /** After renumbering, entry `k` is labelled "Chat k+1". */
  lemma RenumberedNames(chats: seq<Chat>, k: nat)
    requires k < |chats|
    ensures Renumbered(chats)[k].name == ChatName(k + 1)
  {
  }

  /** After renumbering no two archived conversations share a name. */
  lemma RenumberedNamesDistinct(chats: seq<Chat>, j: nat, k: nat)
    requires j < k < |chats|
    ensures Renumbered(chats)[j].name != Renumbered(chats)[k].name
  {
    if Renumbered(chats)[j].name == Renumbered(chats)[k].name {
      ChatNameInjective(j + 1, k + 1);
    }
  }

  /** A transcript made of question/answer pairs: a user turn, then a bot turn. */
  predicate Paired(ms: seq<Message>)
  {
    && |ms| % 2 == 0
    && forall k :: 0 <= k < |ms| ==> ms[k].role == (if k % 2 == 0 then User else Bot)
  }

  class Session {
    var current: Chat
    var archive: seq<Chat>

    /** Every conversation, in use or archived, pairs each question with one answer. */
    ghost predicate Valid()
      reads this
    {
      && Paired(current.messages)
      && forall k :: 0 <= k < |archive| ==> Paired(archive[k].messages)
    }

    /** A fresh session: nothing archived, an empty "Chat 1" in use. */
    constructor ()
      ensures Valid()
      ensures archive == [] && current == Chat(ChatName(1), [])
    {
      var empty: seq<Chat> := [];
      archive := empty;
      current := Chat(ChatName(|empty| + 1), []);
    }

    /** "New Chat": archive the conversation in use unless it is empty, then
        start an empty one labelled after the archive's new length. */
    method AddNewChat()
      requires Valid()
      modifies this
      ensures Valid()
      ensures archive == if old(current.messages) != []
                         then old(archive) + [old(current)] else old(archive)
      ensures current == Chat(ChatName(|archive| + 1), [])
    {
      if current.messages != [] {
        archive := archive + [current];
      }
      current := Chat(ChatName(|archive| + 1), []);
    }

    /** "Select": the conversation in use goes to the end of the archive (even
        when empty) and archived entry `i` is taken out and put in use. */
    method SelectChat(i: nat)
      requires Valid()
      requires i < |archive|
      modifies this
      ensures Valid()
      ensures current == old(archive[i])
      ensures |archive| == |old(archive)|
      ensures archive == RemoveAt(old(archive), i) + [old(current)]
      ensures multiset(archive) + multiset{current} == old(multiset(archive) + multiset{current})
    {
      archive := archive + [current];
      current := archive[i];
      archive := RemoveAt(archive, i);
      RemoveAtMultiset(old(archive) + [old(current)], i);
      assert old(archive) + [old(current)] == old(archive)[..i] + old(archive)[i..] + [old(current)];
    }

    /** "Delete": archived entry `i` is dropped and every remaining entry is
        relabelled "Chat k+1" by position, custom names included. */
    method DeleteChat(i: nat)
      requires Valid()
      requires i < |archive|
      modifies this
      ensures Valid()
      ensures current == old(current)
      ensures archive == Renumbered(RemoveAt(old(archive), i))
    {
      archive := RemoveAt(archive, i);
      ghost var kept := archive;
      var k := 0;
      while k < |archive|
        invariant |archive| == |kept|
        invariant 0 <= k <= |archive|
        invariant forall j :: 0 <= j < k ==> archive[j] == Chat(ChatName(j + 1), kept[j].messages)
        invariant forall j :: k <= j < |archive| ==> archive[j] == kept[j]
        invariant current == old(current)
      {
        archive := archive[k := archive[k].(name := ChatName(k + 1))];
        k := k + 1;
      }
      assert archive == Renumbered(kept);
    }

    /** "Rename": archived entry `i` takes the new name, unchecked; nothing else changes. */
    method RenameChat(i: nat, newName: string)
      requires Valid()
      requires i < |archive|
      modifies this
      ensures Valid()
      ensures current == old(current)
      ensures archive == old(archive)[i := Chat(newName, old(archive[i].messages))]
    {
      archive := archive[i := archive[i].(name := newName)];
    }

    /** A question typed into the chat box: an empty input is ignored; otherwise
        the question is recorded, then exactly one bot message for the outcome. */
    method Submit(prompt: string, outcome: Outcome, imageOpens: bool, parsesAsTable: bool)
      requires Valid()
      modifies this
      ensures Valid()
      ensures archive == old(archive) && current.name == old(current.name)
      ensures current.messages == if prompt == [] then old(current.messages)
        else old(current.messages) + [UserMessage(prompt), Reply(outcome, imageOpens, parsesAsTable)]
    {
      if prompt == [] {
        return;
      }
      current := current.(messages := current.messages + [UserMessage(prompt)]);
      var answer := Reply(outcome, imageOpens, parsesAsTable);
      current := current.(messages := current.messages + [answer]);
    }
  }

  /** Relabelling on delete can hand the label of the conversation in use to an
      archived one: afterwards two conversations are called "Chat 3". */
  method NameClashAfterDelete() returns (s: Session)
    ensures s.Valid() && |s.archive| == 2
    ensures s.current.name == s.archive[1].name == ChatName(3)
  {
    s := new Session();
    s.Submit("a", Answer(Some("x")), false, false);
    s.AddNewChat();
    s.Submit("b", Answer(Some("y")), false, false);
    s.AddNewChat();
    s.Submit("c", Answer(Some("z")), false, false);
    assert s.current.name == ChatName(3);
    s.DeleteChat(0);
    s.AddNewChat();
  }
}

/** The message store of src/context/MessagingProvider.tsx: unread
    counts, marking a message read, and adding a message. The whole list
    is written to storage after every change. */
module Messaging {
  import opened Wrappers
  import opened Domain
  import opened Lists
  import opened Storage

  /** A message counts as unread when it sits in the inbox and its `read`
      flag is not `true`; an absent flag counts as unread. */
  predicate IsUnread(m: Message) {
    m.folder == Recibidos && m.read != Some(true)
  }

  predicate IsUnreadFor(m: Message, userName: string) {
    IsUnread(m) && m.to == userName
  }

  /** The unread badge: how many inbox messages are not read. */
  function UnreadCount(msgs: seq<Message>): nat
  {
    Count(msgs, IsUnread)
  }

  /** The unread count for one recipient, matched by display name. */
  function UnreadCountFor(msgs: seq<Message>, userName: string): nat
  {
    Count(msgs, (m: Message) => IsUnreadFor(m, userName))
  }

  /** One recipient's unread messages are among all unread messages. */
  lemma UnreadForAtMostUnread(msgs: seq<Message>, userName: string)
    ensures UnreadCountFor(msgs, userName) <= UnreadCount(msgs)
  {
    CountMono(msgs, (m: Message) => IsUnreadFor(m, userName), IsUnread);
  }

  /** Each message with that id gets `read: true`; the rest are kept. */
  function MarkedRead(msgs: seq<Message>, id: string): seq<Message>
  {
    seq(|msgs|, i requires 0 <= i < |msgs| => if msgs[i].id == id then msgs[i].(read := Some(true)) else msgs[i])
  }

  /** Marking keeps length and order, changes only the `read` flag of the
      messages with that id, and marking again changes nothing. */
  lemma MarkReadSpec(msgs: seq<Message>, id: string)
    ensures var r := MarkedRead(msgs, id);
            && |r| == |msgs|
            && (forall i :: 0 <= i < |msgs| && msgs[i].id != id ==> r[i] == msgs[i])
            && (forall i :: 0 <= i < |msgs| && msgs[i].id == id ==> r[i] == msgs[i].(read := Some(true)) && !IsUnread(r[i]))
            && MarkedRead(r, id) == r
  {
  }

  /** Where message `i` is the only one with its id: marking it read
      lowers its recipient's unread count by one when it was unread, and
      leaves the count alone when it was already read. */
  lemma {:induction false} MarkReadLowersCount(msgs: seq<Message>, i: nat, userName: string)
    requires i < |msgs| && msgs[i].to == userName
    requires forall j :: 0 <= j < |msgs| && j != i ==> msgs[j].id != msgs[i].id
    ensures IsUnread(msgs[i]) ==> UnreadCountFor(MarkedRead(msgs, msgs[i].id), userName) == UnreadCountFor(msgs, userName) - 1
    ensures !IsUnread(msgs[i]) ==> UnreadCountFor(MarkedRead(msgs, msgs[i].id), userName) == UnreadCountFor(msgs, userName)
  {
    var id := msgs[i].id;
    var p := (m: Message) => IsUnreadFor(m, userName);
    var r := MarkedRead(msgs, id);
    assert msgs == msgs[..i] + [msgs[i]] + msgs[i + 1..];
    assert r == msgs[..i] + [r[i]] + msgs[i + 1..];
    FilterAppend(msgs[..i] + [msgs[i]], msgs[i + 1..], p);
    FilterAppend(msgs[..i], [msgs[i]], p);
    FilterAppend(msgs[..i] + [r[i]], msgs[i + 1..], p);
    FilterAppend(msgs[..i], [r[i]], p);
  }

  /** The message `addMessage` builds: a stamped id, and `read` forced to
      whether it is filed under sent, whatever the caller passed. */
  function NewMessage(d: MessageDraft, now: Timestamp): (m: Message)
    ensures m.id == Stamp("m", now)
    ensures m.read == Some(d.folder == Enviados)
    ensures m.from == d.from && m.to == d.to && m.subject == d.subject
    ensures m.body == d.body && m.date == d.date && m.folder == d.folder
  {
    Message(Stamp("m", now), d.from, d.to, d.subject, d.body, d.date, d.folder, Some(d.folder == Enviados))
  }

  /** Adding an inbox message raises the unread count by one; adding to
      any other folder leaves it as it was. */
  lemma AddMessageCount(msgs: seq<Message>, d: MessageDraft, now: Timestamp)
    ensures UnreadCount([NewMessage(d, now)] + msgs) == UnreadCount(msgs) + (if d.folder == Recibidos then 1 else 0)
  {
    FilterAppend([NewMessage(d, now)], msgs, IsUnread);
  }

  /** The seeded inbox: three messages for the student, three for the
      teacher and one for the administrator, all unread. The bodies are
      left empty: no operation reads a body. */
  const InitialMessages: seq<Message> := [
    Message("m1", "Prof. Mar\U{00ED}a Garc\U{00ED}a", "Jose Bayona", "Recordatorio: Examen de Matem\U{00E1}ticas", "", "2025-11-25T08:30:00", Recibidos, Some(false)),
    Message("m2", "Secretar\U{00ED}a Acad\U{00E9}mica", "Jose Bayona", "Pago de pensi\U{00F3}n - Mes de Diciembre", "", "2025-11-24T14:15:00", Recibidos, Some(false)),
    Message("m3", "Biblioteca", "Jose Bayona", "Libro pendiente de devoluci\U{00F3}n", "", "2025-11-23T10:00:00", Recibidos, Some(false)),
    Message("m4", "Carlos P\U{00E9}rez", "Mar\U{00ED}a Garc\U{00ED}a", "Reuni\U{00F3}n pedag\U{00F3}gica - Jueves 28", "", "2025-11-25T09:00:00", Recibidos, Some(false)),
    Message("m5", "Sr. Carlos Bayona", "Mar\U{00ED}a Garc\U{00ED}a", "Solicitud de reuni\U{00F3}n", "", "2025-11-24T18:30:00", Recibidos, Some(false)),
    Message("m6", "Recursos Humanos", "Mar\U{00ED}a Garc\U{00ED}a", "Confirmaci\U{00F3}n: Certificado de capacitaci\U{00F3}n", "", "2025-11-22T11:45:00", Recibidos, Some(false)),
    Message("m7", "Ministerio de Educaci\U{00F3}n", "Carlos P\U{00E9}rez", "Actualizaci\U{00F3}n: Normativa educativa 2026", "", "2025-11-25T07:00:00", Recibidos, Some(false))
  ]

  class MessageStore {
    var messages: seq<Message>
    const storage: LocalStorage

    /** Starts from the seeded messages (the stored list is never read
        back) and writes them to storage, as the first effect run does. */
    constructor (storage: LocalStorage)
      modifies storage
      ensures this.storage == storage && messages == InitialMessages
      ensures storage.slots == old(storage.slots)[MessagesKey := MessagesDoc(InitialMessages)]
    {
      this.storage := storage;
      messages := InitialMessages;
      new;
      storage.SetItem(MessagesKey, MessagesDoc(InitialMessages));
    }

    /** `unreadCount` of the current list. */
    function Unread(): nat
      reads this
    {
      UnreadCount(messages)
    }

    /** `getUnreadCountForUser`: never more than the global count. */
    function GetUnreadCountForUser(userName: string): (n: nat)
      reads this
      ensures n <= Unread()
    {
      UnreadForAtMostUnread(messages, userName);
      UnreadCountFor(messages, userName)
    }

    method MarkAsRead(id: string)
      modifies this, storage
      ensures messages == MarkedRead(old(messages), id)
      ensures storage.slots == old(storage.slots)[MessagesKey := MessagesDoc(messages)]
    {
      messages := MarkedRead(messages, id);
      storage.SetItem(MessagesKey, MessagesDoc(messages));
    }

    /** The new message goes first. */
    method AddMessage(d: MessageDraft, now: Timestamp)
      modifies this, storage
      ensures messages == [NewMessage(d, now)] + old(messages)
      ensures storage.slots == old(storage.slots)[MessagesKey := MessagesDoc(messages)]
    {
      messages := [NewMessage(d, now)] + messages;
      storage.SetItem(MessagesKey, MessagesDoc(messages));
    }
  }
}

/** `ConversationSummarizationService`: builds the payload sent to the AI
    summariser from a room's chat history, stores the encrypted summary on the
    room, and e-mails it to the participants the summariser reports. The
    database tables are sequences of records; the AI client, the encryption
    and the e-mail delivery are oracles passed in. */
module Summarization {
  import opened Wrappers
  import opened Collections
  import opened Text
  import opened Entities
  import Guids

  // ---------------------------------------------------------------------------
  // Request and response shapes

  datatype Metadata = Metadata(chatId: string, title: string, startTimeUtc: Instant,
                               endTimeUtc: Instant, language: string, processingStatus: string)

  datatype ParticipantRequest = ParticipantRequest(participantId: string, fullName: string,
                                                   email: string, role: string)

  datatype ChatMessageRequest = ChatMessageRequest(messageId: int, timestamp: string,
                                                   senderId: string, message: string)

  datatype ConversationPayload = ConversationPayload(metadata: Metadata,
                                                     participants: seq<ParticipantRequest>,
                                                     chatHistory: seq<ChatMessageRequest>)

  datatype ParticipantResponse = ParticipantResponse(participantId: string, fullName: string,
                                                     email: Option<string>, role: string)

  datatype SummaryResponse = SummaryResponse(summary: Option<string>,
                                             participants: Option<seq<ParticipantResponse>>)

  /** The parts of the HTML mail that vary: the greeted name, the room name
      and the summary with its line breaks turned into `<br>`. */
  datatype EmailBody = EmailBody(greeting: string, roomName: string, summaryHtml: string)

  /** One `SendEmailAsync` call and whether it completed without throwing. */
  datatype EmailAttempt = EmailAttempt(to: string, subject: string, body: EmailBody, delivered: bool)

  /** The e-mail service: whether sending (to, subject, body) succeeds. */
  type Delivery = (string, string, EmailBody) -> bool

  const Language: string := "tr-TR"
  const PendingStatus: string := "pending"
  const ParticipantRole: string := "Participant"
  const SubjectPrefix: string := "Toplantı Özeti: "

  // ---------------------------------------------------------------------------
  // The room's messages, ordered by SentAt

  /** `Messages.Where(m => m.RoomId == roomId)`: every message of the room,
      as often as the table holds it, and nothing else. */
  function MessagesOf(all: seq<Message>, roomId: Guids.Guid): (r: seq<Message>)
    ensures forall m :: multiset(r)[m] == if m.roomId == roomId then multiset(all)[m] else 0
  {
    if all == [] then []
    else
      assert all == [all[0]] + all[1..];
      (if all[0].roomId == roomId then [all[0]] else []) + MessagesOf(all[1..], roomId)
  }

  predicate SortedBySentAt(s: seq<Message>)
  {
    forall i, j :: 0 <= i < j < |s| ==> s[i].sentAt.ticks <= s[j].sentAt.ticks
  }

  function InsertBySentAt(x: Message, s: seq<Message>): seq<Message>
  {
    if s == [] || x.sentAt.ticks <= s[0].sentAt.ticks then [x] + s
    else [s[0]] + InsertBySentAt(x, s[1..])
  }

  /** `OrderBy(m => m.SentAt)`, as an insertion sort. */
  function SortBySentAt(s: seq<Message>): seq<Message>
  {
    if s == [] then [] else InsertBySentAt(s[0], SortBySentAt(s[1..]))
  }

  /** Every message in `s` was sent no earlier than `t`. */
  predicate NoneBefore(s: seq<Message>, t: nat)
  {
    forall i :: 0 <= i < |s| ==> t <= s[i].sentAt.ticks
  }

  lemma {:induction false} InsertKeepsLowerBound(x: Message, s: seq<Message>, t: nat)
    requires NoneBefore(s, t) && t <= x.sentAt.ticks
    ensures NoneBefore(InsertBySentAt(x, s), t)
  {
    if s != [] && x.sentAt.ticks > s[0].sentAt.ticks {
      InsertKeepsLowerBound(x, s[1..], t);
    }
  }

  lemma {:induction false} InsertKeepsElements(x: Message, s: seq<Message>)
    ensures multiset(InsertBySentAt(x, s)) == multiset(s) + multiset{x}
  {
    if s != [] && x.sentAt.ticks > s[0].sentAt.ticks {
      InsertKeepsElements(x, s[1..]);
      assert s == [s[0]] + s[1..];
    }
  }

  lemma {:induction false} InsertKeepsOrder(x: Message, s: seq<Message>)
    requires SortedBySentAt(s)
    ensures SortedBySentAt(InsertBySentAt(x, s))
  {
    if s == [] || x.sentAt.ticks <= s[0].sentAt.ticks {
      assert NoneBefore(s, x.sentAt.ticks);
    } else {
      InsertKeepsOrder(x, s[1..]);
      assert NoneBefore(s[1..], s[0].sentAt.ticks);
      InsertKeepsLowerBound(x, s[1..], s[0].sentAt.ticks);
    }
  }

  /** The sort yields the messages ordered by SentAt, and exactly those. The
      database does not fix the order of equal times, so neither does this
      contract. */
  lemma {:induction false} SortOrdersBySentAt(s: seq<Message>)
    ensures SortedBySentAt(SortBySentAt(s))
    ensures multiset(SortBySentAt(s)) == multiset(s)
  {
    if s != [] {
      SortOrdersBySentAt(s[1..]);
      InsertKeepsOrder(s[0], SortBySentAt(s[1..]));
      InsertKeepsElements(s[0], SortBySentAt(s[1..]));
      assert s == [s[0]] + s[1..];
    }
  }

  /** The query of lines 38-43. */
  function RoomMessages(all: seq<Message>, roomId: Guids.Guid): seq<Message>
  {
    SortBySentAt(MessagesOf(all, roomId))
  }

  // ---------------------------------------------------------------------------
  // The payload

  predicate IsDigit(c: char)
  {
    '0' <= c <= '9'
  }

  /** `s[i..i + 2]` is two decimal digits spelling `n`. */
  predicate ReadsAs(s: string, i: nat, n: nat)
  {
    i + 2 <= |s| && IsDigit(s[i]) && IsDigit(s[i + 1])
    && (s[i] as int - '0' as int) * 10 + (s[i + 1] as int - '0' as int) == n
  }

  function TwoDigits(n: nat): (r: string)
    requires n < 100
    ensures |r| == 2 && ReadsAs(r, 0, n)
  {
    [('0' as int + n / 10) as char, ('0' as int + n % 10) as char]
  }

  function SecondsOf(t: Instant): nat
  {
    t.ticks / TicksPerSecond
  }

  /** "HH:mm:ss": eight characters that read back as `h`, `m` and `sec`. */
  function Clock(h: nat, m: nat, sec: nat): (r: string)
    requires h < 24 && m < 60 && sec < 60
    ensures |r| == 8 && r[2] == ':' && r[5] == ':'
    ensures ReadsAs(r, 0, h) && ReadsAs(r, 3, m) && ReadsAs(r, 6, sec)
  {
    var hh, mm, ss := TwoDigits(h), TwoDigits(m), TwoDigits(sec);
    var r := hh + ":" + mm + ":" + ss;
    assert r[0] == hh[0] && r[1] == hh[1];
    assert r[3] == mm[0] && r[4] == mm[1];
    assert r[6] == ss[0] && r[7] == ss[1];
    r
  }

  /** The clock text of the `secs`-th second: the hour of the day, the minute
      and the second. */
  function ClockText(secs: nat): (r: string)
    ensures |r| == 8 && r[2] == ':' && r[5] == ':'
    ensures ReadsAs(r, 0, secs / 3600 % 24)
    ensures ReadsAs(r, 3, secs / 60 % 60)
    ensures ReadsAs(r, 6, secs % 60)
  {
    Clock(secs / 3600 % 24, secs / 60 % 60, secs % 60)
  }

  /** `SentAt.ToString("HH:mm:ss")`. */
  function TimeOfDay(t: Instant): string
  {
    ClockText(SecondsOf(t))
  }

  /** The timestamp carries no date: instants a whole day apart show the
      same text. */
  lemma TimeOfDayRepeatsDaily(t: Instant)
    ensures TimeOfDay(Instant(t.ticks + 86400 * TicksPerSecond)) == TimeOfDay(t)
  {
    DivAddMultiple(t.ticks, 86400, TicksPerSecond);
    ClockTextRepeatsDaily(SecondsOf(t));
  }

  lemma ClockTextRepeatsDaily(secs: nat)
    ensures ClockText(secs + 86400) == ClockText(secs)
  {
    var h, m := secs / 3600, secs / 60;
    DivAddMultiple(secs, 24, 3600);
    DivAddMultiple(secs, 1440, 60);
    assert (h + 24) % 24 == h % 24;
    assert (m + 1440) % 60 == m % 60;
  }

  lemma DivAddMultiple(a: nat, k: nat, d: nat)
    requires d > 0
    ensures (a + k * d) / d == a / d + k && (a + k * d) % d == a % d
  {
    var q, r := a / d, a % d;
    assert a + k * d == (q + k) * d + r;
    DivUnique(a + k * d, d, q + k, r);
  }

  lemma DivUnique(n: nat, d: nat, q: nat, r: nat)
    requires d > 0 && r < d && n == q * d + r
    ensures n / d == q && n % d == r
  {
    var q', r' := n / d, n % d;
    assert q' * d + r' == q * d + r;
    if q' < q {
      assert (q - q') * d == r' - r;
      MulAtLeast(q - q', d);
    } else if q' > q {
      assert (q' - q) * d == r - r';
      MulAtLeast(q' - q, d);
    }
  }

  lemma {:induction false} MulAtLeast(x: nat, d: nat)
    requires x >= 1
    ensures x * d >= d
  {
    if x > 1 {
      MulAtLeast(x - 1, d);
      assert x * d == (x - 1) * d + d;
    }
  }

  /** The chat history entry of the message at position `index`. */
  function ChatEntry(index: nat, m: Message): ChatMessageRequest
  {
    ChatMessageRequest(index + 1, TimeOfDay(m.sentAt), Guids.ToString(m.senderId), m.content)
  }

  function ChatHistory(msgs: seq<Message>): seq<ChatMessageRequest>
  {
    seq(|msgs|, i requires 0 <= i < |msgs| => ChatEntry(i, msgs[i]))
  }

  function Senders(msgs: seq<Message>): seq<User>
  {
    seq(|msgs|, i requires 0 <= i < |msgs| => msgs[i].sender)
  }

  function ParticipantOf(u: User): ParticipantRequest
  {
    ParticipantRequest(Guids.ToString(u.id), Trim(u.firstName + " " + u.lastName),
                       u.email.GetOr(""), ParticipantRole)
  }

  /** `messages.Select(m => m.Sender).Distinct()` projected to requests. */
  function PayloadParticipants(msgs: seq<Message>): seq<ParticipantRequest>
  {
    var senders := Distinct(Senders(msgs));
    seq(|senders|, k requires 0 <= k < |senders| => ParticipantOf(senders[k]))
  }

  /** The request of lines 52-76: the room's key text, name and creation time,
      the current time as the end, Turkish, still pending; one history entry
      per message and at most one participant per message. */
  function BuildPayload(room: Room, msgs: seq<Message>, now: Instant): (p: ConversationPayload)
    ensures p.metadata.chatId == Guids.ToString(room.id) && p.metadata.title == room.name
    ensures p.metadata.startTimeUtc == room.createdAt && p.metadata.endTimeUtc == now
    ensures p.metadata.language == "tr-TR" && p.metadata.processingStatus == "pending"
    ensures |p.chatHistory| == |msgs| && |p.participants| <= |msgs|
    ensures forall i :: 0 <= i < |msgs| ==> p.chatHistory[i].timestamp == TimeOfDay(msgs[i].sentAt)
  {
    ConversationPayload(
      Metadata(Guids.ToString(room.id), room.name, room.createdAt, now, Language, PendingStatus),
      PayloadParticipants(msgs),
      ChatHistory(msgs))
  }

  // ---------------------------------------------------------------------------
  // Recipients: one per distinct non-blank e-mail, the first of its group

  predicate Blank(p: ParticipantResponse)
  {
    IsNullOrWhiteSpace(p.email)
  }

  /** `Where(non-blank).GroupBy(Email).Select(g => g.First())`, walking the
      list once and remembering the addresses already grouped. */
  function FirstPerEmail(ps: seq<ParticipantResponse>, seen: set<string>): seq<ParticipantResponse>
  {
    if ps == [] then []
    else if !Blank(ps[0]) && ps[0].email.value !in seen then
      [ps[0]] + FirstPerEmail(ps[1..], seen + {ps[0].email.value})
    else FirstPerEmail(ps[1..], seen)
  }

  /** Every entry of `r` has a non-blank address outside `seen`. */
  predicate AllFresh(r: seq<ParticipantResponse>, seen: set<string>)
  {
    forall k :: 0 <= k < |r| ==> !Blank(r[k]) && r[k].email.value !in seen
  }

  /** No two entries of `r` share an address. */
  predicate DistinctEmails(r: seq<ParticipantResponse>)
  {
    forall k, l :: 0 <= k < l < |r| ==> r[k].email != r[l].email
  }

  lemma {:induction false} FirstPerEmailFresh(ps: seq<ParticipantResponse>, seen: set<string>)
    ensures AllFresh(FirstPerEmail(ps, seen), seen)
  {
    if ps != [] {
      var r := FirstPerEmail(ps, seen);
      if !Blank(ps[0]) && ps[0].email.value !in seen {
        var seen' := seen + {ps[0].email.value};
        var rest := FirstPerEmail(ps[1..], seen');
        assert r == [ps[0]] + rest;
        FirstPerEmailFresh(ps[1..], seen');
        forall k | 1 <= k < |r| ensures !Blank(r[k]) && r[k].email.value !in seen {
          assert r[k] == rest[k - 1];
        }
      } else {
        assert r == FirstPerEmail(ps[1..], seen);
        FirstPerEmailFresh(ps[1..], seen);
      }
    }
  }

  lemma {:induction false} FirstPerEmailDistinct(ps: seq<ParticipantResponse>, seen: set<string>)
    ensures DistinctEmails(FirstPerEmail(ps, seen))
  {
    if ps != [] {
      var r := FirstPerEmail(ps, seen);
      if !Blank(ps[0]) && ps[0].email.value !in seen {
        var seen' := seen + {ps[0].email.value};
        var rest := FirstPerEmail(ps[1..], seen');
        assert r == [ps[0]] + rest;
        FirstPerEmailDistinct(ps[1..], seen');
        FirstPerEmailFresh(ps[1..], seen');
        forall k, l | 0 <= k < l < |r| ensures r[k].email != r[l].email {
          assert r[l] == rest[l - 1];
          if k > 0 {
            assert r[k] == rest[k - 1];
          }
        }
      } else {
        assert r == FirstPerEmail(ps[1..], seen);
        FirstPerEmailDistinct(ps[1..], seen);
      }
    }
  }

  /** Some entry of `r` has address `email`. */
  predicate HasEmail(r: seq<ParticipantResponse>, email: Option<string>)
  {
    exists k :: 0 <= k < |r| && r[k].email == email
  }

  /** Every non-blank address of `ps` outside `seen` has an entry in `r`. */
  predicate Covers(ps: seq<ParticipantResponse>, seen: set<string>, r: seq<ParticipantResponse>)
  {
    forall i :: 0 <= i < |ps| && !Blank(ps[i]) && ps[i].email.value !in seen ==> HasEmail(r, ps[i].email)
  }

  lemma {:induction false} FirstPerEmailCovers(ps: seq<ParticipantResponse>, seen: set<string>)
    ensures Covers(ps, seen, FirstPerEmail(ps, seen))
  {
    if ps != [] {
      var r := FirstPerEmail(ps, seen);
      var head := !Blank(ps[0]) && ps[0].email.value !in seen;
      var seen' := if head then seen + {ps[0].email.value} else seen;
      var rest := FirstPerEmail(ps[1..], seen');
      assert r == if head then [ps[0]] + rest else rest;
      FirstPerEmailCovers(ps[1..], seen');
      forall i | 0 <= i < |ps| && !Blank(ps[i]) && ps[i].email.value !in seen
        ensures HasEmail(r, ps[i].email)
      {
        if head && ps[i].email == ps[0].email {
          assert r[0].email == ps[i].email;
        } else if i > 0 {
          assert ps[1..][i - 1] == ps[i];
          assert HasEmail(rest, ps[1..][i - 1].email);
          var k :| 0 <= k < |rest| && rest[k].email == ps[i].email;
          if head {
            assert r[k + 1] == rest[k];
          } else {
            assert r[k] == rest[k];
          }
        }
      }
    }
  }

  /** Position `i` holds the first participant with its address. */
  predicate FirstOfGroup(ps: seq<ParticipantResponse>, i: int)
    requires 0 <= i < |ps|
  {
    forall j :: 0 <= j < i ==> ps[j].email != ps[i].email
  }

  /** `q` is the first participant of `ps` with its address. */
  predicate IsGroupHead(ps: seq<ParticipantResponse>, q: ParticipantResponse)
  {
    exists i :: 0 <= i < |ps| && ps[i] == q && FirstOfGroup(ps, i)
  }

  predicate AllGroupHeads(ps: seq<ParticipantResponse>, r: seq<ParticipantResponse>)
  {
    forall k :: 0 <= k < |r| ==> IsGroupHead(ps, r[k])
  }

  lemma {:induction false} FirstPerEmailTakesFirst(ps: seq<ParticipantResponse>, seen: set<string>)
    ensures AllGroupHeads(ps, FirstPerEmail(ps, seen))
  {
    if ps != [] {
      var r := FirstPerEmail(ps, seen);
      var head := !Blank(ps[0]) && ps[0].email.value !in seen;
      var seen' := if head then seen + {ps[0].email.value} else seen;
      var rest := FirstPerEmail(ps[1..], seen');
      assert r == if head then [ps[0]] + rest else rest;
      FirstPerEmailTakesFirst(ps[1..], seen');
      FirstPerEmailFresh(ps[1..], seen');
      var offset := if head then 1 else 0;
      if head {
        assert r[0] == ps[0] && FirstOfGroup(ps, 0);
      }
      forall k | offset <= k < |r|
        ensures IsGroupHead(ps, r[k])
      {
        assert r[k] == rest[k - offset];
        assert IsGroupHead(ps[1..], rest[k - offset]);
        var i' :| 0 <= i' < |ps[1..]| && ps[1..][i'] == rest[k - offset] && FirstOfGroup(ps[1..], i');
        assert ps[i' + 1] == ps[1..][i'];
        forall j | 0 <= j < i' + 1
          ensures ps[j].email != ps[i' + 1].email
        {
          if j > 0 {
            assert ps[j] == ps[1..][j - 1];
            assert ps[1..][j - 1].email != ps[1..][i'].email;
          } else {
            assert !Blank(rest[k - offset]) && rest[k - offset].email.value !in seen';
          }
        }
        assert FirstOfGroup(ps, i' + 1);
      }
    }
  }

  function Recipients(ps: seq<ParticipantResponse>): seq<ParticipantResponse>
  {
    FirstPerEmail(ps, {})
  }

  function Subject(roomName: string): string
  {
    SubjectPrefix + roomName
  }

  /** The send of line 127 for one recipient. */
  function Attempt(p: ParticipantResponse, roomName: string, summary: string, deliver: Delivery): EmailAttempt
  {
    var to := p.email.GetOr("");
    var body := EmailBody(p.fullName, roomName, ReplaceNewlines(summary));
    EmailAttempt(to, Subject(roomName), body, deliver(to, Subject(roomName), body))
  }

  /** Every send `SendSummaryEmailsToParticipantsAsync` attempts, in order. */
  function EmailAttempts(response: SummaryResponse, roomName: string, deliver: Delivery): seq<EmailAttempt>
    requires response.summary.Some?
  {
    if response.participants.None? || response.participants.value == [] then []
    else
      var rs := Recipients(response.participants.value);
      seq(|rs|, k requires 0 <= k < |rs| => Attempt(rs[k], roomName, response.summary.value, deliver))
  }

  /** Writing the encrypted summary onto the room row found by key. */
  function SaveSummary(rooms: seq<Room>, roomId: Guids.Guid, encrypted: string): seq<Room>
  {
    match RoomIndex(rooms, roomId)
    case None => rooms
    case Some(k) => rooms[k := rooms[k].(summary := Some(encrypted))]
  }

  // ---------------------------------------------------------------------------
  // Properties

  /** The chat history has one entry per message of the room, in SentAt
      order, numbered 1..n, each carrying its message's sender and text. */
  lemma ChatHistoryOfRoom(all: seq<Message>, room: Room, now: Instant)
    ensures var msgs := RoomMessages(all, room.id);
            var history := BuildPayload(room, msgs, now).chatHistory;
            SortedBySentAt(msgs)
            && (forall m :: multiset(msgs)[m] == if m.roomId == room.id then multiset(all)[m] else 0)
            && |history| == |msgs|
            && forall i :: 0 <= i < |history| ==>
                 history[i].messageId == i + 1 && history[i].senderId == Guids.ToString(msgs[i].senderId)
                 && history[i].message == msgs[i].content
  {
    SortOrdersBySentAt(MessagesOf(all, room.id));
  }

  /** Every payload participant stands for the sender of some message, every
      sender is represented, and no sender is listed twice. */
  lemma ParticipantsAreDistinctSenders(msgs: seq<Message>)
    ensures var senders := Distinct(Senders(msgs));
            var ps := PayloadParticipants(msgs);
            NoDuplicates(senders) && |ps| == |senders| <= |msgs|
            && (forall k :: 0 <= k < |ps| ==> ps[k] == ParticipantOf(senders[k]) && senders[k] in Senders(msgs))
            && (forall i :: 0 <= i < |msgs| ==> msgs[i].sender in senders)
  {
    var all := Senders(msgs);
    var senders := Distinct(all);
    forall i | 0 <= i < |msgs|
      ensures msgs[i].sender in senders
    {
      assert all[i] == msgs[i].sender;
    }
  }

  /** A participant's full name is its first and last name joined by a space
      and trimmed; a missing e-mail becomes ""; the role is "Participant". */
  lemma ParticipantFields(u: User)
    ensures var p := ParticipantOf(u);
            NoEdgeWhiteSpace(p.fullName)
            && (p.email == "" <==> u.email.None? || u.email.value == "")
            && p.role == "Participant"
            && (!IsNullOrWhiteSpace(Some(u.firstName)) ==> p.fullName != [])
  {
    if !IsNullOrWhiteSpace(Some(u.firstName)) {
      NonBlankStartTrimsToNonEmpty(u.firstName, " ", u.lastName);
    }
  }

  /** Recipients are the participants with a non-blank e-mail, exactly one
      per distinct address, each the first participant with that address. */
  lemma RecipientsOnePerAddress(ps: seq<ParticipantResponse>)
    ensures var rs := Recipients(ps);
            (forall k :: 0 <= k < |rs| ==> !Blank(rs[k]))
            && (forall k, l :: 0 <= k < l < |rs| ==> rs[k].email != rs[l].email)
            && (forall i :: 0 <= i < |ps| && !Blank(ps[i]) ==>
                  exists k :: 0 <= k < |rs| && rs[k].email == ps[i].email)
            && (forall k :: 0 <= k < |rs| ==> exists i :: 0 <= i < |ps| && rs[k] == ps[i] && FirstOfGroup(ps, i))
  {
    FirstPerEmailFresh(ps, {});
    FirstPerEmailDistinct(ps, {});
    FirstPerEmailCovers(ps, {});
    FirstPerEmailTakesFirst(ps, {});
  }

  /** No mail is attempted when the response lists no participants. */
  lemma NoParticipantsNoMail(response: SummaryResponse, roomName: string, deliver: Delivery)
    requires response.summary.Some?
    requires response.participants.None? || response.participants.value == []
    ensures EmailAttempts(response, roomName, deliver) == []
  {
  }

  /** A failing send does not stop the others: which addresses are mailed,
      and with what, does not depend on which sends fail. */
  lemma FailuresDoNotStopSends(response: SummaryResponse, roomName: string, d1: Delivery, d2: Delivery)
    requires response.summary.Some?
    ensures var a1 := EmailAttempts(response, roomName, d1);
            var a2 := EmailAttempts(response, roomName, d2);
            |a1| == |a2|
            && forall k :: 0 <= k < |a1| ==>
                 a1[k].to == a2[k].to && a1[k].subject == a2[k].subject && a1[k].body == a2[k].body
  {
  }

  /** Each address that gets mail is a distinct non-blank address of the
      response, and the mail carries the room name and the summary. */
  lemma MailGoesToDistinctAddresses(response: SummaryResponse, roomName: string, deliver: Delivery)
    requires response.summary.Some? && response.participants.Some?
    ensures var attempts := EmailAttempts(response, roomName, deliver);
            (forall k, l :: 0 <= k < l < |attempts| ==> attempts[k].to != attempts[l].to)
            && (forall k :: 0 <= k < |attempts| ==>
                  !IsNullOrWhiteSpace(Some(attempts[k].to))
                  && attempts[k].subject == SubjectPrefix + roomName
                  && attempts[k].body.summaryHtml == ReplaceNewlines(response.summary.value))
  {
    var attempts := EmailAttempts(response, roomName, deliver);
    if response.participants.value != [] {
      var rs := Recipients(response.participants.value);
      RecipientsOnePerAddress(response.participants.value);
      forall k, l | 0 <= k < l < |attempts| ensures attempts[k].to != attempts[l].to {
        assert rs[k].email != rs[l].email;
      }
    }
  }

  /** Saving the summary changes only the summary of the room with that key. */
  lemma SaveSummaryTouchesOneRoom(rooms: seq<Room>, roomId: Guids.Guid, encrypted: string)
    ensures var rooms' := SaveSummary(rooms, roomId, encrypted);
            |rooms'| == |rooms|
            && forall i :: 0 <= i < |rooms| ==>
                 rooms'[i].(summary := rooms[i].summary) == rooms[i]
                 && (rooms'[i] != rooms[i] ==> rooms[i].id == roomId && rooms'[i].summary == Some(encrypted))
  {
  }

  // ---------------------------------------------------------------------------

  /** How `SummarizeAndSaveAsync` ended: `KeyNotFoundException`, the early
      return for a room without messages, the `HttpRequestException` of an AI
      call that failed, or a summary received for the payload. */
  datatype SummaryStatus =
    | RoomNotFound
    | NoMessages
    | AiFailed(payload: ConversationPayload)
    | Summarized(payload: ConversationPayload)

  class ConversationSummarizationService {
    /** The Rooms and Messages tables, and every e-mail send attempted. */
    var rooms: seq<Room>
    var messages: seq<Message>
    var emailLog: seq<EmailAttempt>

    constructor (rooms: seq<Room>, messages: seq<Message>)
      ensures this.rooms == rooms && this.messages == messages && emailLog == []
    {
      this.rooms, this.messages, emailLog := rooms, messages, [];
    }

    /** `ai` is `GetSummaryAsync`: None when it throws, on a non-success
        status or a null body. */
    method SummarizeAndSave(roomId: Guids.Guid, now: Instant, ai: ConversationPayload -> Option<SummaryResponse>,
                            encrypt: string -> string, deliver: Delivery)
      returns (status: SummaryStatus)
      modifies this
      ensures messages == old(messages)
      ensures FindRoom(old(rooms), roomId).None? ==>
                status == RoomNotFound && rooms == old(rooms) && emailLog == old(emailLog)
      ensures FindRoom(old(rooms), roomId).Some? && RoomMessages(messages, roomId) == [] ==>
                status == NoMessages && rooms == old(rooms) && emailLog == old(emailLog)
      ensures FindRoom(old(rooms), roomId).Some? && RoomMessages(messages, roomId) != [] ==>
                var room := FindRoom(old(rooms), roomId).value;
                var payload := BuildPayload(room, RoomMessages(messages, roomId), now);
                ai(payload).None? ==>
                  status == AiFailed(payload) && rooms == old(rooms) && emailLog == old(emailLog)
      ensures FindRoom(old(rooms), roomId).Some? && RoomMessages(messages, roomId) != [] ==>
                var room := FindRoom(old(rooms), roomId).value;
                var payload := BuildPayload(room, RoomMessages(messages, roomId), now);
                ai(payload).Some? ==>
                var response := ai(payload).value;
                status == Summarized(payload)
                && (IsNullOrEmpty(response.summary) ==> rooms == old(rooms) && emailLog == old(emailLog))
                && (!IsNullOrEmpty(response.summary) ==>
                      rooms == SaveSummary(old(rooms), roomId, encrypt(response.summary.value))
                      && emailLog == old(emailLog) + EmailAttempts(response, room.name, deliver))
    {
      var found := FindRoom(rooms, roomId);
      if found.None? {
        return RoomNotFound;
      }
      var room := found.value;
      var msgs := RoomMessages(messages, roomId);
      if msgs == [] {
        return NoMessages;
      }
      var payload := BuildPayload(room, msgs, now);
      var reply := ai(payload);
      if reply.None? {
        return AiFailed(payload);
      }
      var summaryResponse := reply.value;
      status := Summarized(payload);
      var summaryText := summaryResponse.summary;
      if !IsNullOrEmpty(summaryText) {
        var encryptedSummary := encrypt(summaryText.value);
        match RoomIndex(rooms, roomId) {
          case Some(k) =>
            rooms := rooms[k := rooms[k].(summary := Some(encryptedSummary))];
          case None =>
        }
        var attempts := SendSummaryEmailsToParticipants(summaryResponse, room.name, deliver);
        emailLog := emailLog + attempts;
      }
    }

    /** The `foreach` with its try/catch: a failed send is recorded and the
        loop goes on with the next recipient. */
    method SendSummaryEmailsToParticipants(response: SummaryResponse, roomName: string, deliver: Delivery)
      returns (attempts: seq<EmailAttempt>)
      requires response.summary.Some?
      ensures attempts == EmailAttempts(response, roomName, deliver)
    {
      if response.participants.None? || response.participants.value == [] {
        return [];
      }
      var subject := Subject(roomName);
      var distinctParticipants := Recipients(response.participants.value);
      attempts := [];
      for i := 0 to |distinctParticipants|
        invariant |attempts| == i
        invariant forall k :: 0 <= k < i ==>
                    attempts[k] == Attempt(distinctParticipants[k], roomName, response.summary.value, deliver)
      {
        var participant := distinctParticipants[i];
        var to := participant.email.GetOr("");
        var body := EmailBody(participant.fullName, roomName, ReplaceNewlines(response.summary.value));
        var delivered := deliver(to, subject, body);
        attempts := attempts + [EmailAttempt(to, subject, body, delivered)];
      }
    }
  }
}

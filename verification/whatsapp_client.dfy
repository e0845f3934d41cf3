/** `WhatsAppClient`: how an incoming message is routed to the session
    manager and which replies go back, and how an outgoing message is
    addressed.

    The transport is not modelled. `downloadMedia` is the optional `media` of
    the message (absent when the download fails); `analyzeImage`,
    `transcribeAudio` and `chat` are the functions of `Services`. Replies are
    listed in the order `message.reply` is called. */
module WhatsAppClient {
  import opened Wrappers
  import opened Text
  import Clock
  import opened DatabaseService
  import opened OpenAiService
  import opened ConversationManager

  /** The sender id of status updates, which are ignored. */
  const Broadcast: string := "status@broadcast"

  /** The suffix of an individual chat id. */
  const UserSuffix: string := "@c.us"

  const ImageNotice: string := "Analisando sua imagem... \U{1F50D}"
  const AudioNotice: string := "Ouvindo seu áudio... \U{1F3A7}"
  const UnsupportedReply: string := "Por favor, envie imagens ou áudios para que eu possa te ajudar! \U{1F4F8}\U{1F3A4}"
  const MediaApology: string := "Desculpe, tive dificuldade em processar essa mídia. Pode tentar enviar novamente?"

  datatype Media = Media(mimetype: string, data: string)

  /** An incoming message: sender id, text or caption, the `hasMedia` flag
      and the downloaded media, if the download succeeded. */
  datatype Inbound = Inbound(from: string, body: string, hasMedia: bool, media: Option<Media>)

  /** The outcomes of the calls into the inference client. */
  datatype Services = Services(
    chat: ChatRequest -> Option<string>,
    analyze: Media -> Option<string>,
    transcribe: Media -> Option<string>)

  // ---------------------------------------------------------------------------
  // Chat ids

  /** `message.from.replace('@c.us', '')`: the first occurrence goes. */
  function PhoneOf(from: string): (r: string)
    ensures !Contains(from, UserSuffix) ==> r == from
  {
    RemoveFirst(from, UserSuffix)
  }

  /** `${phoneNumber}@c.us`. */
  function ChatId(phone: string): (r: string)
    ensures |r| == |phone| + |UserSuffix| && r[..|phone|] == phone
    ensures r != Broadcast
  {
    var r := phone + UserSuffix;
    assert r[|r| - 1] == 's' && Broadcast[|Broadcast| - 1] == 't';
    r
  }

  /** The only occurrence of the suffix in a chat id built from a phone
      without the suffix is the one appended, so the phone reads back. */
  lemma PhoneOfChatId(phone: string)
    ensures !Contains(phone, UserSuffix) ==> PhoneOf(ChatId(phone)) == phone
  {
    if !Contains(phone, UserSuffix) {
      SuffixOnlyAtEnd(phone);
    }
  }

  lemma SuffixOnlyAtEnd(phone: string)
    requires !Contains(phone, UserSuffix)
    ensures IndexOfFrom(ChatId(phone), UserSuffix, 0) == Some(|phone|)
  {
    var id := ChatId(phone);
    var n := |phone|;
    assert id == phone + UserSuffix;
    assert UserSuffix == ['@', 'c', '.', 'u', 's'];
    assert OccursAt(id, UserSuffix, n);
    ContainsMeansOccurs(phone, UserSuffix);
    forall j | 0 <= j < n
      ensures !OccursAt(id, UserSuffix, j)
    {
      if j + |UserSuffix| <= n {
        assert id[j..j + |UserSuffix|] == phone[j..j + |UserSuffix|];
        assert !OccursAt(phone, UserSuffix, j);
      } else {
        var k := n - j;
        assert id[j..j + |UserSuffix|][k] == id[n] == '@';
        assert UserSuffix[k] != '@';
      }
    }
  }

  /** The result of `sendMessage(phone, text)`: the chat it was addressed to
      and the boolean it returns. */
  datatype Delivery = Delivery(chatId: string, text: string, ok: bool)

  /** `sendMessage(phone, text)`, given whether the transport call succeeded:
      a failure is reported as false and never raised. */
  function SendMessage(phone: string, text: string, delivered: bool): (r: Delivery)
    ensures r.ok <==> delivered
    ensures r.text == text
    ensures !Contains(phone, UserSuffix) ==> PhoneOf(r.chatId) == phone
  {
    PhoneOfChatId(phone);
    Delivery(ChatId(phone), text, delivered)
  }

  // ---------------------------------------------------------------------------
  // Routing

  /** `lowerBody === 'resumo' || lowerBody === 'resumo do dia'`. */
  predicate SummaryRequest(body: string) {
    Normalized(body) == "resumo" || Normalized(body) == "resumo do dia"
  }

  predicate ImageMime(mimetype: string) {
    StartsWith(mimetype, "image/")
  }

  predicate AudioMime(mimetype: string) {
    Contains(mimetype, "audio") || Contains(mimetype, "ogg")
  }

  /** `handleTextMessage`: the summary for the two summary words, otherwise
      the conversation. */
  function HandleText(s: Session, phone: string, body: string, svc: Services, now: Clock.Now): (r: (Session, string))
    ensures SummaryRequest(body) ==> r == (s, TodaySummary(s.db, phone, now.isoDate))
    ensures !SummaryRequest(body) ==> r == HandleMessage(s, phone, body, svc.chat, now)
    ensures r.0.pending == s.pending && r.0.db.meals == s.db.meals
  {
    if SummaryRequest(body) then (s, TodaySummary(s.db, phone, now.isoDate))
    else HandleMessage(s, phone, body, svc.chat, now)
  }

  /** `handleMediaMessage`: images before audio, a notice before the answer,
      an apology when the download failed and a request for an image or an
      audio otherwise. */
  function HandleMedia(s: Session, phone: string, caption: string, media: Option<Media>, svc: Services,
                       now: Clock.Now): (r: (Session, seq<string>))
    ensures media.None? ==> r == (s, [MediaApology])
    ensures media.Some? && ImageMime(media.value.mimetype) ==>
      r == (HandleImage(s, phone, caption, svc.analyze(media.value), now).0,
            [ImageNotice, HandleImage(s, phone, caption, svc.analyze(media.value), now).1])
    ensures media.Some? && !ImageMime(media.value.mimetype) && AudioMime(media.value.mimetype) ==>
      r == (HandleAudio(s, phone, svc.transcribe(media.value), svc.chat, now).0,
            [AudioNotice, HandleAudio(s, phone, svc.transcribe(media.value), svc.chat, now).1])
    ensures media.Some? && !ImageMime(media.value.mimetype) && !AudioMime(media.value.mimetype) ==>
      r == (s, [UnsupportedReply])
    ensures r.0.db.meals == s.db.meals
  {
    match media
    case None => (s, [MediaApology])
    case Some(m) =>
      if ImageMime(m.mimetype) then
        var (s1, reply) := HandleImage(s, phone, caption, svc.analyze(m), now);
        (s1, [ImageNotice, reply])
      else if AudioMime(m.mimetype) then
        var (s1, reply) := HandleAudio(s, phone, svc.transcribe(m), svc.chat, now);
        (s1, [AudioNotice, reply])
      else (s, [UnsupportedReply])
  }

  /** `handleIncomingMessage(message)`: status updates are ignored; the
      pending confirmation is answered first and alone; otherwise the
      message goes to the text or the media handler. Every other message
      gets at least one reply. */
  function HandleIncoming(s: Session, msg: Inbound, svc: Services, now: Clock.Now): (r: (Session, seq<string>))
    ensures msg.from == Broadcast ==> r == (s, [])
    ensures msg.from != Broadcast ==> 1 <= |r.1| <= 2
    ensures msg.from != Broadcast ==>
      var (s1, answer) := CheckPending(s, PhoneOf(msg.from), msg.body, now);
      && (answer.Some? ==> r == (s1, [answer.value]))
      && (answer.None? && !msg.hasMedia ==>
            r == (HandleText(s1, PhoneOf(msg.from), msg.body, svc, now).0,
                  [HandleText(s1, PhoneOf(msg.from), msg.body, svc, now).1]))
      && (answer.None? && msg.hasMedia ==>
            r == HandleMedia(s1, PhoneOf(msg.from), msg.body, msg.media, svc, now))
  {
    if msg.from == Broadcast then (s, [])
    else
      var phone := PhoneOf(msg.from);
      var (s1, answer) := CheckPending(s, phone, msg.body, now);
      if answer.Some? then (s1, [answer.value])
      else if !msg.hasMedia then
        var (s2, reply) := HandleText(s1, phone, msg.body, svc, now);
        (s2, [reply])
      else HandleMedia(s1, phone, msg.body, msg.media, svc, now)
  }

  /** A meal is recorded only when the message answers a pending
      confirmation with a confirming text. */
  lemma OnlyConfirmationRecordsMeals(s: Session, msg: Inbound, svc: Services, now: Clock.Now)
    ensures var r := HandleIncoming(s, msg, svc, now);
      r.0.db.meals != s.db.meals ==>
        var phone := PhoneOf(msg.from);
        && msg.from != Broadcast
        && phone in s.pending && !Expired(s.pending[phone], now) && Affirmative(msg.body)
        && r.1 == [ConfirmReply(s.pending[phone].foodName, DetermineMealType(now.hour))]
  {
    if msg.from != Broadcast {
      var phone := PhoneOf(msg.from);
      var (s1, answer) := CheckPending(s, phone, msg.body, now);
      if !(phone in s.pending && !Expired(s.pending[phone], now) && Affirmative(msg.body)) {
        assert s1.db == s.db;
      }
    }
  }

  /** A message without text cannot answer a pending confirmation. */
  lemma EmptyBodyAnswersNothing(s: Session, phone: string, now: Clock.Now)
    ensures CheckPending(s, phone, "", now).1.None?
  {
    assert Normalized("") == "";
  }

  /** The mimetype WhatsApp gives voice notes. */
  const VoiceNoteMime: string := "audio/ogg; codecs=opus"

  lemma VoiceNoteMimeIsAudio()
    ensures !ImageMime(VoiceNoteMime) && AudioMime(VoiceNoteMime)
  {
    var mime := VoiceNoteMime;
    assert mime[..6] != "image/" by { assert mime[0] == 'a'; }
    assert OccursAt(mime, "audio", 0);
    ContainsMeansOccurs(mime, "audio");
  }

  /** A voice note takes the audio path. */
  lemma VoiceNoteIsAudio(s: Session, phone: string, caption: string, data: string, svc: Services, now: Clock.Now)
    ensures var m := Media(VoiceNoteMime, data);
      HandleMedia(s, phone, caption, Some(m), svc, now).1
        == [AudioNotice, HandleAudio(s, phone, svc.transcribe(m), svc.chat, now).1]
  {
    VoiceNoteMimeIsAudio();
  }

  /** From the user's side: a photo without caption whose analysis names a
      calorie figure, then a "sim" within five minutes, records exactly one
      meal with the analysed food and calories, and the second message gets
      the confirmation alone. */
  lemma {:induction false} PhotoThenYes(s: Session, phone: string, m: Media, analysis: string, svc: Services,
                                        now1: Clock.Now, now2: Clock.Now, text: string)
    requires !Contains(phone, UserSuffix)
    requires ImageMime(m.mimetype) && svc.analyze(m) == Some(analysis)
    requires CaloriesTruthy(ExtractCaloriesFromText(analysis))
    requires now2.ms - now1.ms <= PendingTtl
    requires Affirmative(text)
    ensures var (s1, replies1) := HandleIncoming(s, Inbound(ChatId(phone), "", true, Some(m)), svc, now1);
      var (s2, replies2) := HandleIncoming(s1, Inbound(ChatId(phone), text, false, None), svc, now2);
      && |replies1| == 2 && replies1[0] == ImageNotice
      && |s2.db.meals| == |s.db.meals| + 1
      && s2.db.meals[|s.db.meals|].foodName == ExtractFoodName(analysis)
      && s2.db.meals[|s.db.meals|].calories == ExtractCaloriesFromText(analysis).value
      && replies2 == [ConfirmReply(ExtractFoodName(analysis), DetermineMealType(now2.hour))]
  {
    PhoneOfChatId(phone);
    var id := ChatId(phone);
    EmptyBodyAnswersNothing(s, phone, now1);
    var (s0, _) := CheckPending(s, phone, "", now1);
    assert s0.db == s.db;
    ImageThenConfirm(s0, phone, "", analysis, now1, now2, text);
    var (s1, _) := HandleImage(s0, phone, "", Some(analysis), now1);
    assert HandleIncoming(s, Inbound(id, "", true, Some(m)), svc, now1).0 == s1;
    var (s2, reply) := CheckPending(s1, phone, text, now2);
    assert reply.Some?;
    assert HandleIncoming(s1, Inbound(id, text, false, None), svc, now2) == (s2, [reply.value]);
  }
}

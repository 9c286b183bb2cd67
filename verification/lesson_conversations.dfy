/**
 * Loading a scripted lesson conversation (lib/lesson-conversations.ts): the
 * conversation row whose id or lesson id matches, its turns in `order_index`
 * order with their `jsonb` language maps parsed, and the in-memory fallback
 * conversations used when the database has no such row or fails.
 */
module LessonConversations {
  import opened Wrappers
  import opened Conversation
  import opened Schema
  import opened Seqs
  import Sorting
  import Text
  import LessonInterface

  // ---------------------------------------------------------------- fallback data

  /** The English words of a fallback conversation: its title, description, scenario and turn texts. */
  datatype Wording = Wording(title: string, description: string, scenario: string, lines: seq<string>)

  /**
   * The translations and romanizations of the `l1` turns, turn by turn. The
   * wording and the translations are kept apart from the structure of the
   * conversations so that proofs about the structure do not unfold the text.
   */
  datatype Translations = Translations(text: seq<LangMap>, romanization: seq<LangMap>)

  /** The `i`-th map of a per-turn list, if there is one. */
  function MapAt(maps: seq<LangMap>, i: nat): Option<LangMap>
  {
    if i < |maps| then Some(maps[i]) else None
  }

  /** The `l1` conversation. */
  function L1(w: Wording, tr: Translations): LessonConversation
    requires |w.lines| == 6
  {
    LessonConversation("conv-1", Some("l1"), w.title, Some(w.description), Some(w.scenario),
      [
        Turn("t1", "Officer", w.lines[0], MapAt(tr.text, 0), MapAt(tr.romanization, 0), 0),
        Turn("t2", "Passenger", w.lines[1], MapAt(tr.text, 1), MapAt(tr.romanization, 1), 1),
        Turn("t3", "Officer", w.lines[2], MapAt(tr.text, 2), MapAt(tr.romanization, 2), 2),
        Turn("t4", "Passenger", w.lines[3], MapAt(tr.text, 3), MapAt(tr.romanization, 3), 3),
        Turn("t5", "Officer", w.lines[4], MapAt(tr.text, 4), MapAt(tr.romanization, 4), 4),
        Turn("t6", "Passenger", w.lines[5], MapAt(tr.text, 5), MapAt(tr.romanization, 5), 5)
      ])
  }

  /** The `l2` conversation. */
  function L2(w: Wording): LessonConversation
    requires |w.lines| == 4
  {
    LessonConversation("conv-2", Some("l2"), w.title, Some(w.description), Some(w.scenario),
      [
        Turn("t1", "Officer", w.lines[0], None, None, 0),
        Turn("t2", "Passenger", w.lines[1], None, None, 1),
        Turn("t3", "Officer", w.lines[2], None, None, 2),
        Turn("t4", "Passenger", w.lines[3], None, None, 3)
      ])
  }

  /** The `l3` conversation. */
  function L3(w: Wording): LessonConversation
    requires |w.lines| == 4
  {
    LessonConversation("conv-3", Some("l3"), w.title, Some(w.description), Some(w.scenario),
      [
        Turn("t1", "Officer", w.lines[0], None, None, 0),
        Turn("t2", "Passenger", w.lines[1], None, None, 1),
        Turn("t3", "Officer", w.lines[2], None, None, 2),
        Turn("t4", "Passenger", w.lines[3], None, None, 3)
      ])
  }

  /** The `l4` conversation. */
  function L4(w: Wording): LessonConversation
    requires |w.lines| == 6
  {
    LessonConversation("conv-4", Some("l4"), w.title, Some(w.description), Some(w.scenario),
      [
        Turn("t1", "Officer", w.lines[0], None, None, 0),
        Turn("t2", "Passenger", w.lines[1], None, None, 1),
        Turn("t3", "Officer", w.lines[2], None, None, 2),
        Turn("t4", "Passenger", w.lines[3], None, None, 3),
        Turn("t5", "Officer", w.lines[4], None, None, 4),
        Turn("t6", "Passenger", w.lines[5], None, None, 5)
      ])
  }

  function L1Wording(): Wording
  {
    Wording("Airport Check-in Conversation",
      "Practice checking in at the airport",
      "Airport Check-in",
      [
      "Hello! Welcome to check-in. May I see your passport, please?",
      "Hello. Yes, here it is.",
      "Thank you. Do you have any bags to check?",
      "Yes, I have one suitcase.",
      "Please place your suitcase on the scale.",
      "Okay, here you go."
      ])
  }

  function L2Wording(): Wording
  {
    Wording("Airport Security Conversation",
      "Practice going through airport security",
      "Airport Security",
      [
      "Now, put your bag on the security belt.",
      "Do I need to remove my shoes?",
      "Yes, and also take out any electronics from your bag.",
      "Alright, I will do that now."
      ])
  }

  function L3Wording(): Wording
  {
    Wording("Finding Your Seat",
      "Practice finding your seat on the plane",
      "Finding Your Seat",
      [
      "Welcome aboard! Can I help you find your seat?",
      "Yes, please. Where can I find seat 14A?",
      "It is near the window, on the left side of the plane.",
      "Thank you very much!"
      ])
  }

  function L4Wording(): Wording
  {
    Wording("Immigration and Customs",
      "Practice going through immigration",
      "Immigration",
      [
      "What is the purpose of your visit?",
      "I am visiting for a vacation.",
      "How long will you stay?",
      "I will stay for five days.",
      "Please enjoy your trip and follow the airport signs for exit.",
      "I will. Have a good day."
      ])
  }

  function L1Translations(): Translations
  {
    Translations(
      [
        [
          Entry("es-ES", "¡Hola! Bienvenido al facturación. ¿Me enseña su pasaporte, por favor?"),
          Entry("es-MX", "¡Hola! Bienvenido al mostrador. ¿Me muestra su pasaporte, por favor?"),
          Entry("fr-FR", "Bonjour ! Bienvenue à l'enregistrement. Puis-je voir votre passeport, s'il vous plaît ?"),
          Entry("de-DE", "Hallo! Willkommen zur Abfertigung. Darf ich bitte Ihren Pass sehen?"),
          Entry("it-IT", "Buongiorno! Benvenuto al check-in. Posso vedere il suo passaporto, per favore?"),
          Entry("ja-JP", "こんにちは。チェックインへようこそ。パスポートを見せていただけますか。"),
          Entry("zh-CN", "您好！欢迎办理登机手续。请出示您的护照。"),
          Entry("pt-BR", "Olá! Bem-vindo ao check-in. Posso ver seu passaporte, por favor?"),
          Entry("pt-PT", "Olá! Bem-vindo ao check-in. Posso ver o seu passaporte, por favor?"),
          Entry("ko-KR", "안녕하세요. 체크인에 오신 것을 환영합니다. 여권을 보여 주시겠어요?"),
          Entry("ar-SA", "مرحباً! أهلاً بك في التسجيل. هل أستطيع رؤية جواز سفرك من فضلك؟"),
          Entry("hi-IN", "नमस्ते! चेक-इन में आपका स्वागत है। क्या मैं आपका पासपोर्ट देख सकता हूँ?"),
          Entry("nl-NL", "Hallo! Welkom bij de incheckbalie. Mag ik uw paspoort zien?"),
          Entry("ru-RU", "Здравствуйте! Добро пожаловать на регистрацию. Покажите, пожалуйста, паспорт."),
          Entry("pl-PL", "Dzień dobry! Witamy przy odprawie. Czy mogę zobaczyć pana paszport?"),
          Entry("tr-TR", "Merhaba! Check-in'e hoş geldiniz. Pasaportunuzu görebilir miyim lütfen?"),
          Entry("zh-TW", "您好！歡迎辦理登機手續。請出示您的護照。")
        ],
        [
          Entry("es-ES", "Hola. Sí, aquí está."),
          Entry("es-MX", "Hola. Sí, aquí está."),
          Entry("fr-FR", "Bonjour. Oui, le voici."),
          Entry("de-DE", "Hallo. Ja, hier ist er."),
          Entry("it-IT", "Buongiorno. Sì, eccolo."),
          Entry("ja-JP", "こんにちは。はい、こちらです。"),
          Entry("zh-CN", "您好。好的，给您。"),
          Entry("pt-BR", "Olá. Sim, aqui está."),
          Entry("pt-PT", "Olá. Sim, aqui está."),
          Entry("ko-KR", "안녕하세요. 네, 여기 있습니다."),
          Entry("ar-SA", "مرحباً. نعم، هذا هو."),
          Entry("hi-IN", "नमस्ते। हाँ, यह रहा।"),
          Entry("nl-NL", "Hallo. Ja, hier is die."),
          Entry("ru-RU", "Здравствуйте. Да, вот он."),
          Entry("pl-PL", "Dzień dobry. Tak, proszę."),
          Entry("tr-TR", "Merhaba. Evet, işte burada."),
          Entry("zh-TW", "您好。好的，在這裡。")
        ],
        [
          Entry("es-ES", "Gracias. ¿Tiene equipaje para facturar?"),
          Entry("es-MX", "Gracias. ¿Tiene equipaje para documentar?"),
          Entry("fr-FR", "Merci. Avez-vous des bagages à enregistrer ?"),
          Entry("de-DE", "Danke. Haben Sie Gepäck zur Aufgabe?"),
          Entry("it-IT", "Grazie. Ha bagagli da imbarcare?"),
          Entry("ja-JP", "ありがとうございます。預ける荷物はありますか。"),
          Entry("zh-CN", "谢谢。您有需要托运的行李吗？"),
          Entry("pt-BR", "Obrigado. Você tem bagagem para despachar?"),
          Entry("pt-PT", "Obrigado. Tem bagagem para enviar?"),
          Entry("ko-KR", "감사합니다. 위탁 수하물이 있으신가요?"),
          Entry("ar-SA", "شكراً. هل لديك أمتعة للشحن؟"),
          Entry("hi-IN", "धन्यवाद। क्या आपके पास चेक करने के लिए सामान है?"),
          Entry("nl-NL", "Dank u. Heeft u bagage om in te checken?"),
          Entry("ru-RU", "Спасибо. У вас есть багаж для сдачи?"),
          Entry("pl-PL", "Dziękuję. Czy ma pan bagaż do nadania?"),
          Entry("tr-TR", "Teşekkürler. Teslim edilecek bagajınız var mı?"),
          Entry("zh-TW", "謝謝。您有需要託運的行李嗎？")
        ],
        [
          Entry("es-ES", "Sí, tengo una maleta."),
          Entry("es-MX", "Sí, tengo una maleta."),
          Entry("fr-FR", "Oui, j'ai une valise."),
          Entry("de-DE", "Ja, ich habe einen Koffer."),
          Entry("it-IT", "Sì, ho una valigia."),
          Entry("ja-JP", "はい、スーツケースが一つあります。"),
          Entry("zh-CN", "有的，我有一个行李箱。"),
          Entry("pt-BR", "Sim, tenho uma mala."),
          Entry("pt-PT", "Sim, tenho uma mala."),
          Entry("ko-KR", "네, 가방 하나 있습니다."),
          Entry("ar-SA", "نعم، لدي حقيبة واحدة."),
          Entry("hi-IN", "हाँ, मेरे पास एक सूटकेस है।"),
          Entry("nl-NL", "Ja, ik heb één koffer."),
          Entry("ru-RU", "Да, у меня один чемодан."),
          Entry("pl-PL", "Tak, mam jedną walizkę."),
          Entry("tr-TR", "Evet, bir bavulum var."),
          Entry("zh-TW", "有的，我有一個行李箱。")
        ],
        [
          Entry("es-ES", "Por favor, ponga su maleta en la báscula."),
          Entry("es-MX", "Por favor, ponga su maleta en la báscula."),
          Entry("fr-FR", "Veuillez poser votre valise sur la balance."),
          Entry("de-DE", "Bitte stellen Sie Ihren Koffer auf die Waage."),
          Entry("it-IT", "Per favore, metta la valigia sulla bilancia."),
          Entry("ja-JP", "スーツケースをスケールに載せてください。"),
          Entry("zh-CN", "请把您的行李箱放在秤上。"),
          Entry("pt-BR", "Por favor, coloque sua mala na balança."),
          Entry("pt-PT", "Por favor, coloque a sua mala na balança."),
          Entry("ko-KR", "가방을 저울 위에 올려 주세요."),
          Entry("ar-SA", "من فضلك ضع حقيبتك على الميزان."),
          Entry("hi-IN", "कृपया अपना सूटकेस तराजू पर रखें।"),
          Entry("nl-NL", "Plaats uw koffer alstublieft op de weegschaal."),
          Entry("ru-RU", "Пожалуйста, поставьте чемодан на весы."),
          Entry("pl-PL", "Proszę położyć walizkę na wadze."),
          Entry("tr-TR", "Lütfen bavulunuzu tartıya koyun."),
          Entry("zh-TW", "請把您的行李箱放在秤上。")
        ],
        [
          Entry("es-ES", "Vale, aquí tiene."),
          Entry("es-MX", "De acuerdo, aquí está."),
          Entry("fr-FR", "D'accord, voilà."),
          Entry("de-DE", "Okay, bitte sehr."),
          Entry("it-IT", "Va bene, ecco."),
          Entry("ja-JP", "はい、どうぞ。"),
          Entry("zh-CN", "好的，给您。"),
          Entry("pt-BR", "Certo, aqui está."),
          Entry("pt-PT", "Certo, aqui está."),
          Entry("ko-KR", "네, 여기요."),
          Entry("ar-SA", "حسناً، تفضل."),
          Entry("hi-IN", "ठीक है, यह लीजिए।"),
          Entry("nl-NL", "Oké, alsjeblieft."),
          Entry("ru-RU", "Хорошо, пожалуйста."),
          Entry("pl-PL", "Dobrze, proszę."),
          Entry("tr-TR", "Tamam, buyurun."),
          Entry("zh-TW", "好的，在這裡。")
        ]
      ],
      [
        [
          Entry("ar-SA", "Marhaban! Ahlan bik fi at-tasjīl. Hal astatīʿu ruʾyata jawāz safarik min faḍlik?"),
          Entry("ja-JP", "Konnichiwa. Chekku-in e yōkoso. Pasupōto o misete itadakemasu ka?"),
          Entry("zh-CN", "Nín hǎo! Huānyíng bànlǐ dēngjī shǒuxù. Qǐng chūshì nín de hùzhào."),
          Entry("zh-TW", "Nín hǎo! Huānyíng bànlǐ dēngjī shǒuxù. Qǐng chūshì nín de hùzhào."),
          Entry("ko-KR", "Annyeonghaseyo. Chekeu-in-e osin geoseul hwanyeonghamnida. Yeogwon-eul boyeo jusigesseoyo?"),
          Entry("hi-IN", "Namaste! Chek-in mein aapka swagat hai. Kya main aapka paasport dekh sakta hoon?"),
          Entry("ru-RU", "Zdravstvuyte! Dobro požalovat' na registraciyu. Pokazhite, požaluysta, pasport.")
        ],
        [
          Entry("ar-SA", "Marhaban. Naʿam, hādhā huwa."),
          Entry("ja-JP", "Konnichiwa. Hai, kochira desu."),
          Entry("zh-CN", "Nín hǎo. Hǎo de, gěi nín."),
          Entry("zh-TW", "Nín hǎo. Hǎo de, zài zhèlǐ."),
          Entry("ko-KR", "Annyeonghaseyo. Ne, yeogi itseumnida."),
          Entry("hi-IN", "Namaste. Haan, yah raha."),
          Entry("ru-RU", "Zdravstvuyte. Da, vot on.")
        ],
        [
          Entry("ar-SA", "Shukran. Hal ladayka amtiʿa lil-shahn?"),
          Entry("ja-JP", "Arigatō gozaimasu. Azukeru nimotsu wa arimasu ka?"),
          Entry("zh-CN", "Xièxiè. Nín yǒu xūyào tuōyùn de xínglǐ ma?"),
          Entry("zh-TW", "Xièxiè. Nín yǒu xūyào tuōyùn de xínglǐ ma?"),
          Entry("ko-KR", "Gamsahamnida. Witak suhamuri ga iseungayo?"),
          Entry("hi-IN", "Dhanyavaad. Kya aapke paas check karne ke liye samaan hai?"),
          Entry("ru-RU", "Spasibo. U vas yest' bagazh dlya sdachi?")
        ],
        [
          Entry("ar-SA", "Naʿam, laday ḥaqība wāḥida."),
          Entry("ja-JP", "Hai, sūtsukēsu ga hitotsu arimasu."),
          Entry("zh-CN", "Yǒu de, wǒ yǒu yī gè xínglǐxiāng."),
          Entry("zh-TW", "Yǒu de, wǒ yǒu yī gè xínglǐxiāng."),
          Entry("ko-KR", "Ne, gabang hana itseumnida."),
          Entry("hi-IN", "Haan, mere paas ek suitcase hai."),
          Entry("ru-RU", "Da, u menya odin chemodan.")
        ],
        [
          Entry("ar-SA", "Min faḍlik ḍaʿ ḥaqībatak ʿalā al-mīzān."),
          Entry("ja-JP", "Sūtsukēsu o sukēru ni nosete kudasai."),
          Entry("zh-CN", "Qǐng bǎ nín de xínglǐxiāng fàng zài chèng shàng."),
          Entry("zh-TW", "Qǐng bǎ nín de xínglǐxiāng fàng zài chèng shàng."),
          Entry("ko-KR", "Gabang-eul jeoul wi-e ollyeo juseyo."),
          Entry("hi-IN", "Kripaya apna suitcase taraju par rakhen."),
          Entry("ru-RU", "Pozhaluysta, postavte chemodan na vesy.")
        ],
        [
          Entry("ar-SA", "Ḥasanan, tafaḍḍal."),
          Entry("ja-JP", "Hai, dōzo."),
          Entry("zh-CN", "Hǎo de, gěi nín."),
          Entry("zh-TW", "Hǎo de, zài zhèlǐ."),
          Entry("ko-KR", "Ne, yeogiyo."),
          Entry("hi-IN", "Theek hai, yah lījiye."),
          Entry("ru-RU", "Khorosho, pozhaluysta.")
        ]
      ])
  }

  /** The number of turns each fallback conversation has. */
  predicate Fits(w1: Wording, w2: Wording, w3: Wording, w4: Wording)
  {
    |w1.lines| == 6 && |w2.lines| == 4 && |w3.lines| == 4 && |w4.lines| == 6
  }

  /** `LESSON_CONVERSATIONS`, keyed by the lesson id used in URLs. */
  function Fallbacks(w1: Wording, w2: Wording, w3: Wording, w4: Wording, tr: Translations): map<string, LessonConversation>
    requires Fits(w1, w2, w3, w4)
  {
    map["l1" := L1(w1, tr), "l2" := L2(w2), "l3" := L3(w3), "l4" := L4(w4)]
  }

  /*
   * The table the source ships is
   * `Fallbacks(L1Wording(), L2Wording(), L3Wording(), L4Wording(), L1Translations())`;
   * the four lemmas below show its wording has the lengths `Fits` asks for.
   */

  lemma L1WordingFits()
    ensures |L1Wording().lines| == 6
  {
  }

  lemma L2WordingFits()
    ensures |L2Wording().lines| == 4
  {
  }

  lemma L3WordingFits()
    ensures |L3Wording().lines| == 4
  {
  }

  lemma L4WordingFits()
    ensures |L4Wording().lines| == 6
  {
  }

  /** Each turn's `order` is its position in the list. */
  predicate OrderedByPosition(turns: seq<Turn>)
  {
    forall i :: 0 <= i < |turns| ==> turns[i].order == i
  }

  /** The officer opens and the passenger answers, turn by turn, in complete exchanges. */
  predicate OfficerThenPassenger(turns: seq<Turn>)
  {
    |turns| % 2 == 0
    && forall i :: 0 <= i < |turns| ==> turns[i].role == (if i % 2 == 0 then "Officer" else "Passenger")
  }

  /** A fallback conversation stored under its own lesson id and scripted as exchanges. */
  predicate WellScripted(key: string, c: LessonConversation)
  {
    c.lessonId == Some(key) && |c.turns| >= 4
    && OrderedByPosition(c.turns) && OfficerThenPassenger(c.turns)
  }

  lemma FallbacksWellScripted(w1: Wording, w2: Wording, w3: Wording, w4: Wording, tr: Translations)
    requires Fits(w1, w2, w3, w4)
    ensures var m := Fallbacks(w1, w2, w3, w4, tr);
      m.Keys == {"l1", "l2", "l3", "l4"} && forall k :: k in m ==> WellScripted(k, m[k])
  {
  }

  /** A capitalised word with no other capitals lower-cases to its first letter lowered. */
  lemma NormaliseCapitalised(role: string)
    requires |role| > 0 && Text.IsUpper(role[0]) && Text.NoUpper(role[1..]) && !Text.IsSpace(role[|role| - 1])
    ensures LessonInterface.NormalizeRole(role) == [Text.LowerChar(role[0])] + role[1..]
  {
    LessonInterface.NormalizeTrimmedRole(role);
    assert role == [role[0]] + role[1..];
    Text.ToLowerAppend([role[0]], role[1..]);
    Text.ToLowerOfLower(role[1..]);
  }

  lemma OfficerNormalises(role: string)
    requires role == "Officer"
    ensures LessonInterface.NormalizeRole(role) == "officer"
  {
    assert role[1..] == "fficer";
    NormaliseCapitalised(role);
  }

  lemma PassengerNormalises(role: string)
    requires role == "Passenger"
    ensures LessonInterface.NormalizeRole(role) == "passenger"
  {
    assert role[1..] == "assenger";
    NormaliseCapitalised(role);
  }

  lemma OfficerAlias(r: string)
    requires r == "officer"
    ensures r in LessonInterface.AiRoleAliases && r !in LessonInterface.UserRoleAliases
  {
    assert LessonInterface.AiRoleAliases[0] == r;
  }

  /**
   * "Officer" normalises to an AI alias, so an officer turn is never the
   * learner's, under the alias lists as written and as corrected.
   */
  lemma OfficerIsAi(role: string, i: nat)
    requires role == "Officer"
    ensures !LessonInterface.IsUserTurnAsWritten(role, i)
    ensures !LessonInterface.IsUserTurn(role, i)
  {
    OfficerNormalises(role);
    OfficerAlias(LessonInterface.NormalizeRole(role));
    LessonInterface.IsUserTurnAgrees(role, i);
  }

  /** "Passenger" normalises to a learner alias of both lists. */
  lemma PassengerIsLearner(role: string, i: nat)
    requires role == "Passenger"
    ensures LessonInterface.IsUserTurnAsWritten(role, i)
    ensures LessonInterface.IsUserTurn(role, i)
  {
    PassengerNormalises(role);
    assert LessonInterface.UserRoleAliases[0] == LessonInterface.NormalizeRole(role);
    LessonInterface.IsUserTurnAgrees(role, i);
  }

  /**
   * In every scripted conversation the learner speaks exactly the
   * passenger's (odd) turns, on the screen as written and as corrected.
   */
  lemma WellScriptedLearnerTurns(key: string, c: LessonConversation, i: nat)
    requires WellScripted(key, c) && i < |c.turns|
    ensures LessonInterface.IsUserTurnAsWritten(c.turns[i].role, i) <==> i % 2 == 1
    ensures LessonInterface.IsUserTurn(c.turns[i].role, i) <==> i % 2 == 1
  {
    if i % 2 == 0 {
      OfficerIsAi(c.turns[i].role, i);
    } else {
      PassengerIsLearner(c.turns[i].role, i);
    }
  }

  // ---------------------------------------------------------------- reading from the database

  /** The `where` of the conversation query: the id or the lesson id equals the URL key. */
  predicate Matches(row: ConversationRow, lessonId: string)
  {
    row.id == lessonId || row.lessonId == Some(lessonId)
  }

  /**
   * A `jsonb` language map as read: a JSON string is parsed (a parse failure
   * throws), SQL NULL and an already structured value pass through.
   */
  function DecodeColumn(j: Jsonb<LangMap>, codec: Codec): (r: Result<Option<LangMap>>)
    ensures r.Failure? <==> j.JString? && codec.parse(j.text).None?
    ensures r.Success? && r.value.None? <==> j.JNull?
    ensures j.JValue? ==> r == Success(Some(j.value))
  {
    match j
    case JNull => Success(None)
    case JValue(m) => Success(Some(m))
    case JString(t) =>
      match codec.parse(t)
      case Some(m) => Success(Some(m))
      case None => Failure("SyntaxError: JSON.parse")
  }

  /** One turn row as the lesson page sees it. */
  function TurnOf(row: TurnRow, codec: Codec): (r: Result<Turn>)
    ensures r.Success? <==> DecodeColumn(row.textByLang, codec).Success? && DecodeColumn(row.romanizationByLang, codec).Success?
    ensures r.Success? ==>
      r.value.id == row.id && r.value.role == row.role && r.value.text == row.text
      && r.value.order == row.orderIndex
      && Success(r.value.textByLang) == DecodeColumn(row.textByLang, codec)
      && Success(r.value.romanizationByLang) == DecodeColumn(row.romanizationByLang, codec)
  {
    match DecodeColumn(row.textByLang, codec)
    case Failure(e) => Failure(e)
    case Success(text) =>
      match DecodeColumn(row.romanizationByLang, codec)
      case Failure(e) => Failure(e)
      case Success(romanization) => Success(Turn(row.id, row.role, row.text, text, romanization, row.orderIndex))
  }

  /** `turnsRows.map(...)`: fails as soon as one row fails to decode. */
  function TurnsOf(rows: seq<TurnRow>, codec: Codec): (r: Result<seq<Turn>>)
    ensures r.Success? <==> forall i :: 0 <= i < |rows| ==> TurnOf(rows[i], codec).Success?
    ensures r.Success? ==>
      |r.value| == |rows| && forall i :: 0 <= i < |rows| ==> Success(r.value[i]) == TurnOf(rows[i], codec)
    decreases |rows|
  {
    if |rows| == 0 then Success([])
    else
      match TurnOf(rows[0], codec)
      case Failure(e) => Failure(e)
      case Success(t) =>
        match TurnsOf(rows[1..], codec)
        case Failure(e) => Failure(e)
        case Success(ts) =>
          assert forall i :: 1 <= i < |rows| ==> rows[i] == rows[1..][i - 1];
          Success([t] + ts)
  }

  /** The keys of the turn rows that belong to conversation `cid`. */
  function TurnKeys(db: Db, cid: string): set<string>
  {
    set k | k in db.turns && db.turns[k].conversationId == cid
  }

  /** The decoded turn of every turn row of `cid` that decodes, by row key. */
  function DecodedTurns(db: Db, cid: string, codec: Codec): map<string, Turn>
  {
    map k | k in TurnKeys(db, cid) && TurnOf(db.turns[k], codec).Success? :: TurnOf(db.turns[k], codec).value
  }

  /** Every turn row of `cid` decodes. */
  predicate AllDecode(db: Db, cid: string, codec: Codec)
  {
    forall k :: k in TurnKeys(db, cid) ==> TurnOf(db.turns[k], codec).Success?
  }

  /** The sort key of `orderBy(conversationTurns.orderIndex)`. */
  function OrderKey(t: Turn): seq<int>
  {
    [t.order]
  }

  /**
   * `c` is conversation `conv` with the turns `d` (by row key): the row's
   * fields, then one turn per key of `d`, each a turn of `d`, every turn of
   * `d` among them, in `order_index` order.
   */
  predicate Assembled(conv: ConversationRow, d: map<string, Turn>, c: LessonConversation)
  {
    c.id == conv.id && c.lessonId == conv.lessonId && c.title == conv.title
    && c.description == conv.description && c.scenario == conv.scenario
    && Sorting.SortedBy(c.turns, OrderKey)
    && |c.turns| == |d|
    && (forall i :: 0 <= i < |c.turns| ==> c.turns[i] in d.Values)
    && (forall k :: k in d ==> d[k] in c.turns)
  }

  /** The turn rows of `cid`, one per key, in the order the keys were drawn. */
  method CollectTurns(db: Db, cid: string) returns (rows: seq<TurnRow>, keys: seq<string>)
    ensures |rows| == |keys| && Distinct(keys)
    ensures forall k :: k in TurnKeys(db, cid) <==> k in keys
    ensures forall i :: 0 <= i < |keys| ==> keys[i] in db.turns && rows[i] == db.turns[keys[i]]
  {
    var left := TurnKeys(db, cid);
    rows, keys := [], [];
    while left != {}
      invariant |rows| == |keys| && Distinct(keys)
      invariant forall k :: k in TurnKeys(db, cid) <==> k in keys || k in left
      invariant forall i :: 0 <= i < |keys| ==> keys[i] !in left
      invariant forall i :: 0 <= i < |keys| ==> keys[i] in db.turns && rows[i] == db.turns[keys[i]]
      decreases left
    {
      var k :| k in left;
      rows := rows + [db.turns[k]];
      keys := keys + [k];
      left := left - {k};
    }
  }

  /** Decoding the collected rows one by one lists the decoded turns of the conversation. */
  lemma DecodedRows(db: Db, cid: string, codec: Codec, rows: seq<TurnRow>, keys: seq<string>, turns: seq<Turn>)
    requires |rows| == |keys|
    requires forall k :: k in TurnKeys(db, cid) <==> k in keys
    requires forall i :: 0 <= i < |keys| ==> keys[i] in db.turns && rows[i] == db.turns[keys[i]]
    requires |turns| == |rows| && forall i :: 0 <= i < |rows| ==> Success(turns[i]) == TurnOf(rows[i], codec)
    ensures forall k :: k in DecodedTurns(db, cid, codec) <==> k in keys
    ensures forall i :: 0 <= i < |keys| ==> turns[i] == DecodedTurns(db, cid, codec)[keys[i]]
  {
    var d := DecodedTurns(db, cid, codec);
    forall k
      ensures k in d <==> k in keys
    {
      if k in keys {
        var j :| 0 <= j < |keys| && keys[j] == k;
        assert TurnOf(db.turns[k], codec) == TurnOf(rows[j], codec);
      }
    }
    forall i | 0 <= i < |keys|
      ensures turns[i] == d[keys[i]]
    {
      assert TurnOf(db.turns[keys[i]], codec) == TurnOf(rows[i], codec);
    }
  }

  /** Sorting a key-by-key listing of the decoded turns assembles the conversation. */
  lemma AssembledOfSorted(conv: ConversationRow, d: map<string, Turn>, keys: seq<string>, turns: seq<Turn>,
                          sorted: seq<Turn>)
    requires Distinct(keys) && forall k :: k in d <==> k in keys
    requires |turns| == |keys| && forall i :: 0 <= i < |keys| ==> turns[i] == d[keys[i]]
    requires Sorting.SortedBy(sorted, OrderKey) && multiset(sorted) == multiset(turns)
    ensures Assembled(conv, d, LessonConversation(conv.id, conv.lessonId, conv.title, conv.description,
                                                  conv.scenario, sorted))
  {
    Seqs.PermutedEnumeration(d, keys, turns, sorted);
  }

  /**
   * `getLessonConversationById`: a conversation whose id or lesson id is
   * `lessonId` (the query's `LIMIT 1` has no `ORDER BY`), with its turns.
   * The fallback table's entry (`LESSON_CONVERSATIONS[lessonId] ?? null`)
   * takes its place when the database is unreachable (`dbUp` false), has no
   * such conversation, or holds a turn whose language map does not parse. `chosen` is the key of the row the
   * query returned, if any.
   */
  method GetLessonConversationById(db: Db, dbUp: bool, lessonId: string, codec: Codec,
                                   fallback: map<string, LessonConversation>)
    returns (r: Option<LessonConversation>, chosen: Option<string>)
    ensures chosen.None? <==> !dbUp || forall k :: k in db.conversations ==> !Matches(db.conversations[k], lessonId)
    ensures chosen.Some? ==> chosen.value in db.conversations && Matches(db.conversations[chosen.value], lessonId)
    ensures chosen.None? ==> r == Get(fallback, lessonId)
    ensures chosen.Some? && AllDecode(db, db.conversations[chosen.value].id, codec) ==>
              r.Some? && Assembled(db.conversations[chosen.value],
                                   DecodedTurns(db, db.conversations[chosen.value].id, codec), r.value)
    ensures chosen.Some? && !AllDecode(db, db.conversations[chosen.value].id, codec) ==>
              r == Get(fallback, lessonId)
  {
    chosen := None;
    if dbUp && exists k :: k in db.conversations && Matches(db.conversations[k], lessonId) {
      var k :| k in db.conversations && Matches(db.conversations[k], lessonId);
      chosen := Some(k);
      var conv := db.conversations[k];
      var rows, keys := CollectTurns(db, conv.id);
      var turns := TurnsOf(rows, codec);
      if turns.Success? {
        assert AllDecode(db, conv.id, codec) by {
          forall key | key in TurnKeys(db, conv.id)
            ensures TurnOf(db.turns[key], codec).Success?
          {
            var j :| 0 <= j < |keys| && keys[j] == key;
          }
        }
        r := Some(LessonConversation(conv.id, conv.lessonId, conv.title, conv.description, conv.scenario,
                                     Sorting.SortBy(turns.value, OrderKey)));
        DecodedRows(db, conv.id, codec, rows, keys, turns.value);
        AssembledOfSorted(conv, DecodedTurns(db, conv.id, codec), keys, turns.value, r.value.turns);
        return;
      } else {
        assert !AllDecode(db, conv.id, codec) by {
          var j :| 0 <= j < |rows| && TurnOf(rows[j], codec).Failure?;
          assert keys[j] in TurnKeys(db, conv.id);
        }
      }
    }
    r := Get(fallback, lessonId);
  }
}

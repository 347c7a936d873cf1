/** The client's session state (the `App` component): the uploaded
    documents, the id of the document on screen, the selected file, the
    upload busy flag, the upload options, the quiz tab and the chat input
    box, with the handlers that change them. Each asynchronous handler is
    split at its `await`: a start step that runs before the request and a
    settle step that applies the outcome the request produced. */
module Session {
  import opened Wrappers
  import opened Text
  import opened Questions

  datatype Audience = Novice | Intermediate
  datatype Purpose = Understanding | Exam
  datatype Role = User | Assistant
  datatype Message = Message(role: Role, text: string)

  datatype Section = Section(title: string, bullets: seq<string>)
  datatype Summary = Summary(highLevel: string, sections: seq<Section>)
  datatype GlossaryItem = GlossaryItem(term: string, definition: string, importance: Option<string>)

  /** The JSON body of a successful `POST /upload`. */
  datatype UploadResponse = UploadResponse(
    docId: string, summary: Summary, glossary: seq<GlossaryItem>, questions: seq<Question>)

  /** A document of the library: the upload response merged with the local
      file name and options and the chat transcript. */
  datatype Document = Document(
    docId: string,
    name: string,
    audience: Audience,
    purpose: Purpose,
    summary: Summary,
    glossary: seq<GlossaryItem>,
    questions: seq<Question>,
    chatHistory: seq<Message>)

  datatype FileRef = FileRef(name: string)

  /** How the upload request ended: a parsed 200 body, or any failure
      (non-ok status, network error, unparsable body). */
  datatype UploadOutcome = Uploaded(response: UploadResponse) | UploadFailed

  /** How the chat request ended: the `answer` of the body, or an exception. */
  datatype ChatOutcome = Answer(text: string) | Failed

  /** What an upload captured before its `await`. */
  datatype PendingUpload = PendingUpload(file: FileRef, audience: Audience, purpose: Purpose)

  /** What a send captured before its `await`: the target id and the message. */
  datatype PendingSend = PendingSend(targetId: string, message: string)

  const GreetingPrefix := "반갑습니다! '"
  const GreetingSuffix := "' 분석이 완료되었습니다. 궁금한 점이 있으신가요?"
  const ChatFallback := "오류가 발생했습니다. 잠시 후 다시 시도해주세요."

  /** The seeded assistant greeting of a new document; it names the file. */
  function Greeting(name: string): (g: string)
    ensures IsSubstring(name, g)
    ensures |g| == |GreetingPrefix| + |name| + |GreetingSuffix|
    ensures g[..|GreetingPrefix|] == GreetingPrefix && g[|g| - |GreetingSuffix|..] == GreetingSuffix
  {
    InfixOccurs(GreetingPrefix, name, GreetingSuffix);
    GreetingPrefix + name + GreetingSuffix
  }

  /** `{ ...result, name, audience, purpose, chatHistory: [greeting] }` */
  function NewDocument(p: PendingUpload, r: UploadResponse): (d: Document)
    ensures d.docId == r.docId && d.name == p.file.name
    ensures d.audience == p.audience && d.purpose == p.purpose
    ensures d.summary == r.summary && d.glossary == r.glossary && d.questions == r.questions
    ensures |d.chatHistory| == 1 && d.chatHistory[0].role == Assistant
    ensures IsSubstring(p.file.name, d.chatHistory[0].text)
  {
    Document(r.docId, p.file.name, p.audience, p.purpose, r.summary, r.glossary, r.questions,
             [Message(Assistant, Greeting(p.file.name))])
  }

  /** The assistant message a settled chat request appends. */
  function Reply(outcome: ChatOutcome): (m: Message)
    ensures m.role == Assistant
    ensures outcome.Answer? ==> m.text == outcome.text
    ensures outcome.Failed? ==> m.text == ChatFallback
  {
    match outcome
    case Answer(s) => Message(Assistant, s)
    case Failed => Message(Assistant, ChatFallback)
  }

  /** `documents.find(d => d.doc_id === id)`, as an index: the first
      document with that id, or none when no document has it (always none
      for a null id). */
  function IndexOfDoc(docs: seq<Document>, id: Option<string>): (r: Option<nat>)
    ensures r.Some? ==> r.value < |docs| && id == Some(docs[r.value].docId)
    ensures r.Some? ==> forall j :: 0 <= j < r.value ==> id != Some(docs[j].docId)
    ensures r.None? ==> forall j :: 0 <= j < |docs| ==> id != Some(docs[j].docId)
  {
    if docs == [] then None
    else if id == Some(docs[0].docId) then Some(0)
    else match IndexOfDoc(docs[1..], id)
      case None => None
      case Some(k) => Some(k + 1)
  }

  function WithMessage(d: Document, m: Message): Document {
    d.(chatHistory := d.chatHistory + [m])
  }

  /** `prev.map(doc => doc.doc_id === id ? {...doc, chatHistory: [...doc.chatHistory, m]} : doc)`:
      every document with the id gets `m` appended to its transcript; the
      others, and the length and order of the list, stay as they were. */
  function AppendToMatching(docs: seq<Document>, id: string, m: Message): (r: seq<Document>)
    ensures |r| == |docs|
    ensures forall k :: 0 <= k < |docs| && docs[k].docId == id ==> r[k] == WithMessage(docs[k], m)
    ensures forall k :: 0 <= k < |docs| && docs[k].docId != id ==> r[k] == docs[k]
  {
    if docs == [] then []
    else [if docs[0].docId == id then WithMessage(docs[0], m) else docs[0]]
         + AppendToMatching(docs[1..], id, m)
  }

  /** Appending to transcripts keeps every id in place, so every lookup by
      id finds the same position as before. */
  lemma {:induction false} AppendKeepsLookup(docs: seq<Document>, id: string, m: Message, x: Option<string>)
    ensures IndexOfDoc(AppendToMatching(docs, id, m), x) == IndexOfDoc(docs, x)
  {
    if docs != [] {
      var r := AppendToMatching(docs, id, m);
      assert r[0].docId == docs[0].docId;
      assert r[1..] == AppendToMatching(docs[1..], id, m);
      AppendKeepsLookup(docs[1..], id, m, x);
    }
  }

  /** A document after one exchange for `id`: both messages appended when
      the document has that id, unchanged otherwise. */
  function Exchanged(d: Document, id: string, user: Message, reply: Message): Document {
    if d.docId == id then d.(chatHistory := d.chatHistory + [user, reply]) else d
  }

  /** The user message and the reply, each appended by id in its own step,
      add up to one exchange: a document with the target id ends its
      transcript with exactly those two messages, and nothing else in the
      list changes. */
  lemma ExchangeAppendsTwo(docs: seq<Document>, id: string, user: Message, reply: Message)
    ensures |AppendToMatching(AppendToMatching(docs, id, user), id, reply)| == |docs|
    ensures forall k :: 0 <= k < |docs| ==>
      AppendToMatching(AppendToMatching(docs, id, user), id, reply)[k] ==
      Exchanged(docs[k], id, user, reply)
  {
    var r := AppendToMatching(AppendToMatching(docs, id, user), id, reply);
    forall k | 0 <= k < |docs| ensures r[k] == Exchanged(docs[k], id, user, reply) {
      if docs[k].docId == id {
        assert docs[k].chatHistory + [user] + [reply] == docs[k].chatHistory + [user, reply];
      }
    }
  }

  /** `after` is `before` with possibly more documents at the end and
      possibly more messages at the end of transcripts: documents are never
      removed, reordered or edited otherwise. */
  ghost predicate Grown(before: seq<Document>, after: seq<Document>) {
    |before| <= |after| &&
    forall i :: 0 <= i < |before| ==>
      after[i].(chatHistory := before[i].chatHistory) == before[i] &&
      before[i].chatHistory <= after[i].chatHistory
  }

  lemma AppendToMatchingGrows(docs: seq<Document>, id: string, m: Message)
    ensures Grown(docs, AppendToMatching(docs, id, m))
  {
  }

  class ClientSession {
    var file: Option<FileRef>
    var uploading: bool
    var documents: seq<Document>
    var currentDocId: Option<string>
    var activeTab: Tab
    var audience: Audience
    var purpose: Purpose
    var chatInput: string

    /** The selection is either empty or names a document of the library. */
    ghost predicate Valid()
      reads this
    {
      currentDocId.Some? ==> IndexOfDoc(documents, currentDocId).Some?
    }

    /** `activeDoc`: the first document whose id is the current id. */
    function ActiveDoc(): (d: Option<Document>)
      reads this
      ensures d.Some? ==> d.value in documents && currentDocId == Some(d.value.docId)
      ensures d.Some? ==> exists k :: 0 <= k < |documents| && documents[k] == d.value &&
                                     (forall j :: 0 <= j < k ==> documents[j].docId != d.value.docId)
      ensures Valid() ==> (d.Some? <==> currentDocId.Some?)
    {
      match IndexOfDoc(documents, currentDocId)
      case None => None
      case Some(k) => Some(documents[k])
    }

    /** The guard of `handleSendMessage`: the input is not blank after
        `trim()` and a document is on screen. */
    predicate CanSend()
      reads this
    {
      JsTrim(chatInput) != [] && ActiveDoc().Some?
    }

    constructor ()
      ensures Valid()
      ensures file == None && !uploading && documents == [] && currentDocId == None
      ensures activeTab == McqTab && audience == Novice && purpose == Understanding
      ensures chatInput == ""
    {
      file := None;
      uploading := false;
      documents := [];
      currentDocId := None;
      activeTab := McqTab;
      audience := Novice;
      purpose := Understanding;
      chatInput := "";
    }

    /** `handleFileChange`: a picked file replaces the selection; an empty
        pick leaves it as it was. */
    method ChooseFile(picked: Option<FileRef>)
      modifies this`file
      ensures file == if picked.Some? then picked else old(file)
    {
      if picked.Some? {
        file := picked;
      }
    }

    method SetAudience(a: Audience)
      modifies this`audience
      ensures audience == a
    {
      audience := a;
    }

    method SetPurpose(p: Purpose)
      modifies this`purpose
      ensures purpose == p
    {
      purpose := p;
    }

    method SetChatInput(s: string)
      modifies this`chatInput
      ensures chatInput == s
    {
      chatInput := s;
    }

    /** Switching the quiz tab changes which questions show, not the data. */
    method SelectTab(t: Tab)
      modifies this`activeTab
      ensures activeTab == t
    {
      activeTab := t;
    }

    /** A library entry was clicked: its document becomes the one on screen.
        No document is changed. */
    method SelectDocument(id: string)
      requires Valid()
      requires exists i :: 0 <= i < |documents| && documents[i].docId == id
      modifies this`currentDocId
      ensures Valid() && currentDocId == Some(id)
      ensures ActiveDoc().Some? && ActiveDoc().value.docId == id
    {
      currentDocId := Some(id);
      var i :| 0 <= i < |documents| && documents[i].docId == id;
      assert IndexOfDoc(documents, currentDocId).Some?;
    }

    /** The logo or "add new" was clicked: back to the upload form. No
        document is changed. */
    method ClearSelection()
      modifies this`currentDocId
      ensures Valid() && currentDocId == None && ActiveDoc() == None
    {
      currentDocId := None;
    }

    /** `handleUpload` up to its `await`: without a file it returns at once
        and changes nothing; otherwise it raises the busy flag and captures
        the file and the options. */
    method UploadStart() returns (pending: Option<PendingUpload>)
      modifies this`uploading
      ensures old(file).None? ==> pending.None? && uploading == old(uploading)
      ensures old(file).Some? ==> pending == Some(PendingUpload(file.value, audience, purpose))
      ensures old(file).Some? ==> uploading
    {
      if file.None? {
        return None;
      }
      uploading := true;
      pending := Some(PendingUpload(file.value, audience, purpose));
    }

    /** `handleUpload` after its `await`. On success exactly one document is
        appended, it becomes current and the file selection is cleared; on
        failure nothing but the busy flag changes. The busy flag ends false
        either way. */
    method UploadSettle(p: PendingUpload, outcome: UploadOutcome)
      requires Valid()
      modifies this`documents, this`currentDocId, this`file, this`uploading
      ensures Valid() && !uploading
      ensures Grown(old(documents), documents)
      ensures outcome.UploadFailed? ==>
        documents == old(documents) && currentDocId == old(currentDocId) && file == old(file)
      ensures outcome.Uploaded? ==>
        documents == old(documents) + [NewDocument(p, outcome.response)] &&
        currentDocId == Some(outcome.response.docId) && file == None
      ensures outcome.Uploaded? && IndexOfDoc(old(documents), Some(outcome.response.docId)).None? ==>
        ActiveDoc() == Some(NewDocument(p, outcome.response))
    {
      if outcome.Uploaded? {
        var d := NewDocument(p, outcome.response);
        documents := documents + [d];
        currentDocId := Some(d.docId);
        file := None;
        assert documents[|documents| - 1] == d;
        assert IndexOfDoc(documents, currentDocId).Some?;
        if IndexOfDoc(old(documents), currentDocId).None? {
          assert IndexOfDoc(documents, currentDocId) == Some(|documents| - 1);
        }
      }
      uploading := false;
    }

    /** The whole upload handler for a request that ends with `outcome`. */
    method HandleUpload(outcome: UploadOutcome)
      requires Valid()
      modifies this`documents, this`currentDocId, this`file, this`uploading
      ensures Valid()
      ensures old(file).None? ==>
        documents == old(documents) && currentDocId == old(currentDocId) &&
        file == old(file) && uploading == old(uploading)
      ensures old(file).Some? ==> !uploading && Grown(old(documents), documents)
      ensures old(file).Some? && outcome.UploadFailed? ==>
        documents == old(documents) && currentDocId == old(currentDocId) && file == old(file)
      ensures old(file).Some? && outcome.Uploaded? ==>
        documents == old(documents) + [NewDocument(PendingUpload(old(file).value, audience, purpose), outcome.response)] &&
        currentDocId == Some(outcome.response.docId) && file == None
    {
      var pending := UploadStart();
      if pending.Some? {
        UploadSettle(pending.value, outcome);
      }
    }

    /** `handleSendMessage` up to its `await`. With a blank input or no
        document on screen nothing changes. Otherwise the input is cleared
        and the user message is appended to every document with the
        captured id. */
    method SendStart() returns (pending: Option<PendingSend>)
      requires Valid()
      modifies this`chatInput, this`documents
      ensures Valid() && currentDocId == old(currentDocId)
      ensures !old(CanSend()) ==>
        pending.None? && chatInput == old(chatInput) && documents == old(documents)
      ensures old(CanSend()) ==>
        pending == Some(PendingSend(old(ActiveDoc()).value.docId, old(chatInput))) &&
        chatInput == "" &&
        documents == AppendToMatching(old(documents), pending.value.targetId, Message(User, old(chatInput)))
    {
      if !CanSend() {
        return None;
      }
      var active := ActiveDoc();
      var userMsg := chatInput;
      var targetDocId := active.value.docId;
      chatInput := "";
      documents := AppendToMatching(documents, targetDocId, Message(User, userMsg));
      AppendKeepsLookup(old(documents), targetDocId, Message(User, userMsg), currentDocId);
      pending := Some(PendingSend(targetDocId, userMsg));
    }

    /** `handleSendMessage` after its `await`: the reply, or the fixed
        fallback when the request threw, is appended to the documents with
        the id captured at the start, whichever document is on screen now. */
    method SendSettle(p: PendingSend, outcome: ChatOutcome)
      requires Valid()
      modifies this`documents
      ensures Valid() && currentDocId == old(currentDocId)
      ensures documents == AppendToMatching(old(documents), p.targetId, Reply(outcome))
    {
      documents := AppendToMatching(documents, p.targetId, Reply(outcome));
      AppendKeepsLookup(old(documents), p.targetId, Reply(outcome), currentDocId);
    }

    /** One send that settles before anything else happens: the user
        message and then the reply are appended, by the id on screen at the
        start, to the library (see ExchangeAppendsTwo for the net effect). */
    method HandleSendMessage(outcome: ChatOutcome)
      requires Valid()
      modifies this`chatInput, this`documents
      ensures Valid() && currentDocId == old(currentDocId)
      ensures !old(CanSend()) ==>
        chatInput == old(chatInput) && documents == old(documents)
      ensures old(CanSend()) ==>
        chatInput == "" &&
        documents == AppendToMatching(
          AppendToMatching(old(documents), old(ActiveDoc()).value.docId, Message(User, old(chatInput))),
          old(ActiveDoc()).value.docId, Reply(outcome))
    {
      var pending := SendStart();
      if pending.Some? {
        SendSettle(pending.value, outcome);
      }
    }
  }
  /** A first visit: a file is picked and uploaded on a fresh session. The
      library then holds exactly the new document, made with the default
      options, and it is on screen. */
  method FirstUpload(name: string, r: UploadResponse) returns (session: ClientSession)
    ensures fresh(session)
    ensures session.Valid() && !session.uploading && session.file == None
    ensures session.currentDocId == Some(r.docId) && session.chatInput == ""
    ensures session.documents == [NewDocument(PendingUpload(FileRef(name), Novice, Understanding), r)]
  {
    session := new ClientSession();
    session.ChooseFile(Some(FileRef(name)));
    session.HandleUpload(Uploaded(r));
  }

  /** After the first upload one question is asked. The library holds one
      document, it is on screen, and its transcript is the greeting, the
      question and the answer. */
  method UploadThenAsk(name: string, r: UploadResponse, question: string, outcome: ChatOutcome)
    returns (session: ClientSession)
    requires JsTrim(question) != []
    ensures session.Valid() && !session.uploading && session.file == None
    ensures session.currentDocId == Some(r.docId) && session.chatInput == ""
    ensures |session.documents| == 1
    ensures session.documents[0].docId == r.docId && session.documents[0].name == name
    ensures session.documents[0].chatHistory ==
      [Message(Assistant, Greeting(name)), Message(User, question), Reply(outcome)]
  {
    session := FirstUpload(name, r);
    ghost var d := NewDocument(PendingUpload(FileRef(name), Novice, Understanding), r);
    assert IndexOfDoc(session.documents, session.currentDocId) == Some(0);
    session.SetChatInput(question);
    assert session.CanSend();
    session.HandleSendMessage(outcome);
    ExchangeAppendsTwo([d], r.docId, Message(User, question), Reply(outcome));
    assert session.documents[0] == Exchanged(d, r.docId, Message(User, question), Reply(outcome));
  }
}

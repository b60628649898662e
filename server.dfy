/**
 * The HTTP backend that records a live session: `/init` creates a session folder, `/topic` writes
 * an empty topic document, `/input` appends a text to it and `/end-topic` renames it to its
 * finished name. Each handler is a function from the disk before the request to the reply and
 * the disk after it, and a method that performs the same steps on the `SessionsFolder`.
 */
module Server {
  import opened Wrappers
  import opened Json
  import opened Text
  import opened Storage

  /** A JSON reply: HTTP status and body. */
  datatype Reply = Reply(status: nat, body: Obj)

  /** The fields the handlers read from the request body; `None` when the key is missing or null. */
  datatype Request = Request(sessionUid: Option<string>, topicUid: Option<string>, text: Option<string>)

  /** A reply together with the disk it leaves behind. */
  datatype Outcome = Outcome(reply: Reply, disk: Disk)

  /** Python truthiness of an optional string field (`if not field:` rejects it otherwise). */
  predicate Given(f: Option<string>) {
    f.Some? && f.value != ""
  }

  function Error(status: nat, message: string): Reply {
    Reply(status, [("error", Str(message))])
  }

  /**
   * The reply to a handler that raises. The framework answers 500 with a plain-text page that no
   * handler writes, so its body is left empty here.
   */
  const Crashed: Reply := Reply(500, [])

  /** The document `/topic` writes. */
  function NewTopic(session: string, topic: string): Obj {
    [("session_uid", Str(session)), ("topic_uid", Str(topic)), ("inputs", List([]))]
  }

  // ---------------------------------------------------------------- specification

  /** `GET /init?session_uid=…`: make the session folder (and the root); always succeeds. */
  function Init(d: Disk, session: string): (o: Outcome)
    ensures o.reply.status == 200
    ensures o.disk.present && o.disk.files == d.files
    ensures session != "" ==> session in o.disk.sessions
    ensures d.sessions <= o.disk.sessions && o.disk.sessions - d.sessions <= {session}
  {
    var sessions := if session == "" then d.sessions else d.sessions + {session};
    Outcome(Reply(200, [("message", Str("Session " + session + " created successfully")),
                        ("session_uid", Str(session))]),
            Disk(true, sessions, d.files))
  }

  /** `POST /topic`: write an empty topic document, replacing any document of the same name. */
  function CreateTopic(d: Disk, req: Request): (o: Outcome)
    ensures o.reply.status in {200, 400, 404}
    ensures o.reply.status == 400 <==> !Given(req.sessionUid) || !Given(req.topicUid)
    ensures o.reply.status == 404 <==>
              Given(req.sessionUid) && Given(req.topicUid) && req.sessionUid.value !in d.sessions
    ensures o.reply.status != 200 ==> o.disk == d
    ensures o.reply.status == 200 ==>
              var key := FileKey(req.sessionUid.value, TopicFile(req.topicUid.value));
              && o.disk == d.(files := o.disk.files)
              && o.disk.files.Keys == d.files.Keys + {key}
              && o.disk.files[key] == NewTopic(req.sessionUid.value, req.topicUid.value)
              && (forall k :: k in d.files && k != key ==> o.disk.files[k] == d.files[k])
  {
    if !Given(req.sessionUid) then Outcome(Error(400, "session_uid is required"), d)
    else if !Given(req.topicUid) then Outcome(Error(400, "topic_uid is required"), d)
    else
      var session, topic := req.sessionUid.value, req.topicUid.value;
      if session !in d.sessions then
        Outcome(Error(404, "Session " + session + " not found. Please call /init first."), d)
      else
        var key := FileKey(session, TopicFile(topic));
        Outcome(Reply(200, [("message", Str("Topic " + topic + " created in session " + session)),
                            ("session_uid", Str(session)), ("topic_uid", Str(topic))]),
                d.(files := d.files[key := NewTopic(session, topic)]))
  }

  /**
   * `POST /input`: append the text to the document's `inputs`. A document without an `inputs`
   * list makes the handler raise (KeyError or AttributeError), which the framework answers with 500.
   */
  function AddInput(d: Disk, req: Request): (o: Outcome)
    ensures o.reply.status in {200, 400, 404, 500}
    ensures o.reply.status == 400 <==> !Given(req.sessionUid) || !Given(req.topicUid) || !Given(req.text)
    ensures o.reply.status == 404 <==>
              && Given(req.sessionUid) && Given(req.topicUid) && Given(req.text)
              && FileKey(req.sessionUid.value, TopicFile(req.topicUid.value)) !in d.files
    ensures o.reply.status == 500 <==>
              && Given(req.sessionUid) && Given(req.topicUid) && Given(req.text)
              && var key := FileKey(req.sessionUid.value, TopicFile(req.topicUid.value));
              && key in d.files
              && !(Get(d.files[key], "inputs").Some? && Get(d.files[key], "inputs").value.List?)
    ensures o.reply.status != 200 ==> o.disk == d
    ensures o.reply.status == 200 ==>
              var key := FileKey(req.sessionUid.value, TopicFile(req.topicUid.value));
              && key in d.files
              && Get(d.files[key], "inputs").Some? && Get(d.files[key], "inputs").value.List?
              && var before := Get(d.files[key], "inputs").value.items;
              && key in o.disk.files
              && o.disk == d.(files := d.files[key := o.disk.files[key]])
              && Get(o.disk.files[key], "inputs") == Some(List(before + [Str(req.text.value)]))
              && (forall f :: f != "inputs" ==> Get(o.disk.files[key], f) == Get(d.files[key], f))
              && Keys(o.disk.files[key]) == Keys(d.files[key])
              && Get(o.reply.body, "total_inputs") == Some(Int(|before| + 1))
  {
    if !Given(req.sessionUid) then Outcome(Error(400, "session_uid is required"), d)
    else if !Given(req.topicUid) then Outcome(Error(400, "topic_uid is required"), d)
    else if !Given(req.text) then Outcome(Error(400, "text is required"), d)
    else
      var session, topic, text := req.sessionUid.value, req.topicUid.value, req.text.value;
      var key := FileKey(session, TopicFile(topic));
      if key !in d.files then
        Outcome(Error(404, "Topic " + topic + " not found in session " + session + ". Please call /topic first."), d)
      else
        var content := d.files[key];
        match Get(content, "inputs")
        case Some(List(items)) =>
          var inputs := items + [Str(text)];
          Outcome(Reply(200, [("message", Str("Text added to topic " + topic + " in session " + session)),
                              ("total_inputs", Int(|inputs|))]),
                  d.(files := d.files[key := Set(content, "inputs", List(inputs))]))
        case _ => Outcome(Crashed, d)
  }

  /** `POST /end-topic`: rename `<topic>.json` to `<topic>_finished.json` unless that name is taken. */
  function EndTopic(d: Disk, req: Request): (o: Outcome)
    ensures o.reply.status in {200, 400, 404, 409}
    ensures o.reply.status == 400 <==> !Given(req.sessionUid) || !Given(req.topicUid)
    ensures o.reply.status == 404 <==>
              && Given(req.sessionUid) && Given(req.topicUid)
              && FileKey(req.sessionUid.value, TopicFile(req.topicUid.value)) !in d.files
    ensures o.reply.status == 409 <==>
              && Given(req.sessionUid) && Given(req.topicUid)
              && FileKey(req.sessionUid.value, TopicFile(req.topicUid.value)) in d.files
              && FileKey(req.sessionUid.value, FinishedFile(req.topicUid.value)) in d.files
    ensures o.reply.status != 200 ==> o.disk == d
    ensures o.reply.status == 200 ==>
              var from := FileKey(req.sessionUid.value, TopicFile(req.topicUid.value));
              var to := FileKey(req.sessionUid.value, FinishedFile(req.topicUid.value));
              && from in d.files && to !in d.files
              && o.disk == d.(files := o.disk.files)
              && o.disk.files.Keys == d.files.Keys - {from} + {to}
              && o.disk.files[to] == d.files[from]
              && (forall k :: k in d.files && k != from ==> o.disk.files[k] == d.files[k])
  {
    if !Given(req.sessionUid) then Outcome(Error(400, "session_uid is required"), d)
    else if !Given(req.topicUid) then Outcome(Error(400, "topic_uid is required"), d)
    else
      var session, topic := req.sessionUid.value, req.topicUid.value;
      var from := FileKey(session, TopicFile(topic));
      var to := FileKey(session, FinishedFile(topic));
      if from !in d.files then
        Outcome(Error(404, "Topic " + topic + " not found in session " + session + "."), d)
      else if to in d.files then
        Outcome(Error(409, "Topic " + topic + " has already been marked as finished."), d)
      else
        Outcome(Reply(200, [("message", Str("Topic " + topic + " marked as finished in session " + session)),
                            ("session_uid", Str(session)), ("topic_uid", Str(topic)),
                            ("new_filename", Str(FinishedFile(topic)))]),
                d.(files := (d.files - {from})[to := d.files[from]]))
  }

  // ---------------------------------------------------------------- properties

  /** Initialising a session twice is the same as initialising it once. */
  lemma InitIdempotent(d: Disk, session: string)
    ensures Init(Init(d, session).disk, session) == Init(d, session)
  {
  }

  /** Every handler keeps every document inside an existing session folder. */
  lemma HandlersKeepValid(d: Disk, session: string, req: Request)
    requires d.Valid()
    ensures Init(d, session).disk.Valid()
    ensures CreateTopic(d, req).disk.Valid()
    ensures AddInput(d, req).disk.Valid()
    ensures EndTopic(d, req).disk.Valid()
  {
  }

  /** `<x>_finished` as a topic name takes the same file as the finished document of `<x>`. */
  lemma FinishedNameCollides(topic: string)
    ensures TopicFile(topic + "_finished") == FinishedFile(topic)
  {
  }

  /**
   * Creating topic `<x>_finished` and then topic `<x>` in a session makes ending `<x>` fail with 409,
   * even though `<x>` was never ended.
   */
  lemma CreateFinishedNameBlocksEnd(d: Disk, session: string, topic: string)
    requires session in d.sessions && session != "" && topic != ""
    ensures var d1 := CreateTopic(d, Request(Some(session), Some(topic + "_finished"), None)).disk;
            var d2 := CreateTopic(d1, Request(Some(session), Some(topic), None)).disk;
            EndTopic(d2, Request(Some(session), Some(topic), None)).reply.status == 409
  {
    FinishedNameCollides(topic);
    var fin := FileKey(session, FinishedFile(topic));
    var own := FileKey(session, TopicFile(topic));
    var d1 := CreateTopic(d, Request(Some(session), Some(topic + "_finished"), None)).disk;
    assert fin in d1.files && session in d1.sessions;
    var d2 := CreateTopic(d1, Request(Some(session), Some(topic), None)).disk;
    assert own in d2.files && fin in d2.files;
    var o := EndTopic(d2, Request(Some(session), Some(topic), None));
    assert o.reply.status == 409;
  }

  /** After a topic is ended, appending to it answers 404 and changes nothing. */
  lemma EndedTopicRejectsInput(d: Disk, session: string, topic: string, text: string)
    requires EndTopic(d, Request(Some(session), Some(topic), None)).reply.status == 200
    requires text != ""
    ensures var d1 := EndTopic(d, Request(Some(session), Some(topic), None)).disk;
            AddInput(d1, Request(Some(session), Some(topic), Some(text))) == Outcome(AddInput(d1, Request(Some(session), Some(topic), Some(text))).reply, d1)
    ensures var d1 := EndTopic(d, Request(Some(session), Some(topic), None)).disk;
            AddInput(d1, Request(Some(session), Some(topic), Some(text))).reply.status == 404
  {
  }

  /** Creating a topic again discards the inputs it had. */
  lemma RecreateDropsInputs(d: Disk, session: string, topic: string)
    requires session in d.sessions && session != "" && topic != ""
    ensures var d1 := CreateTopic(d, Request(Some(session), Some(topic), None)).disk;
            Get(d1.files[FileKey(session, TopicFile(topic))], "inputs") == Some(List([]))
  {
    var doc := NewTopic(session, topic);
    assert Get(doc, "inputs") == Get(doc[1..], "inputs");
    assert Get(doc[1..], "inputs") == Get(doc[1..][1..], "inputs");
  }

  /** Append the texts one request at a time; `None` as soon as a request fails. */
  function AddAll(d: Disk, session: string, topic: string, texts: seq<string>): Option<Disk>
    decreases |texts|
  {
    if texts == [] then Some(d)
    else
      var o := AddInput(d, Request(Some(session), Some(topic), Some(texts[0])));
      if o.reply.status == 200 then AddAll(o.disk, session, topic, texts[1..]) else None
  }

  /** Inputs of a document: the `inputs` list, if it is one. */
  function InputsOf(d: Disk, key: FileKey): Option<seq<Value>> {
    if key in d.files && Get(d.files[key], "inputs").Some? && Get(d.files[key], "inputs").value.List? then
      Some(Get(d.files[key], "inputs").value.items)
    else None
  }

  /**
   * Appending non-empty texts to an existing topic succeeds for each of them, and the document's
   * `inputs` becomes the old inputs followed by the texts in order.
   */
  lemma {:induction false} AddAllAppends(d: Disk, session: string, topic: string, texts: seq<string>)
    requires session != "" && topic != ""
    requires InputsOf(d, FileKey(session, TopicFile(topic))).Some?
    requires forall t :: t in texts ==> t != ""
    ensures var r := AddAll(d, session, topic, texts);
            && r.Some?
            && InputsOf(r.value, FileKey(session, TopicFile(topic))) ==
                 Some(InputsOf(d, FileKey(session, TopicFile(topic))).value + seq(|texts|, i requires 0 <= i < |texts| => Str(texts[i])))
    decreases |texts|
  {
    var key := FileKey(session, TopicFile(topic));
    if texts != [] {
      assert texts[0] in texts;
      var o := AddInput(d, Request(Some(session), Some(topic), Some(texts[0])));
      AddInputAppends(d, session, topic, texts[0]);
      var tail := texts[1..];
      assert forall t :: t in tail ==> t in texts;
      AddAllAppends(o.disk, session, topic, tail);
      var prior := InputsOf(d, key).value;
      var tailStrs := seq(|tail|, i requires 0 <= i < |tail| => Str(tail[i]));
      StrsOfHeadTail(texts);
      ConcatAssoc(prior, [Str(texts[0])], tailStrs);
    } else {
      var strs := seq(|texts|, i requires 0 <= i < |texts| => Str(texts[i]));
      assert strs == [];
      assert InputsOf(d, key).value + strs == InputsOf(d, key).value;
    }
  }

  /** One successful append adds the text at the end of the inputs. */
  lemma AddInputAppends(d: Disk, session: string, topic: string, text: string)
    requires session != "" && topic != "" && text != ""
    requires InputsOf(d, FileKey(session, TopicFile(topic))).Some?
    ensures var o := AddInput(d, Request(Some(session), Some(topic), Some(text)));
            && o.reply.status == 200
            && InputsOf(o.disk, FileKey(session, TopicFile(topic))) ==
                 Some(InputsOf(d, FileKey(session, TopicFile(topic))).value + [Str(text)])
  {
  }

  /** The texts as JSON strings: the first one, then the rest. */
  lemma StrsOfHeadTail(texts: seq<string>)
    requires texts != []
    ensures seq(|texts|, i requires 0 <= i < |texts| => Str(texts[i])) ==
              [Str(texts[0])] + seq(|texts| - 1, i requires 0 <= i < |texts| - 1 => Str(texts[1..][i]))
  {
  }

  // ---------------------------------------------------------------- handlers on the disk

  /** Server start-up: `os.makedirs(SESSIONS_FOLDER, exist_ok=True)`. */
  method Start(fs: SessionsFolder)
    modifies fs
    ensures fs.View() == old(fs.View()).(present := true)
    ensures old(fs.View()).Valid() ==> fs.View().Valid()
  {
    fs.MakeRoot();
  }

  method HandleInit(fs: SessionsFolder, session: string) returns (reply: Reply)
    modifies fs
    ensures Outcome(reply, fs.View()) == Init(old(fs.View()), session)
  {
    fs.MakeSession(session);
    reply := Reply(200, [("message", Str("Session " + session + " created successfully")),
                         ("session_uid", Str(session))]);
  }

  method HandleCreateTopic(fs: SessionsFolder, req: Request) returns (reply: Reply)
    modifies fs
    ensures Outcome(reply, fs.View()) == CreateTopic(old(fs.View()), req)
  {
    if !Given(req.sessionUid) {
      return Error(400, "session_uid is required");
    }
    if !Given(req.topicUid) {
      return Error(400, "topic_uid is required");
    }
    var session, topic := req.sessionUid.value, req.topicUid.value;
    if session !in fs.sessions {
      return Error(404, "Session " + session + " not found. Please call /init first.");
    }
    fs.Write(FileKey(session, TopicFile(topic)), NewTopic(session, topic));
    reply := Reply(200, [("message", Str("Topic " + topic + " created in session " + session)),
                         ("session_uid", Str(session)), ("topic_uid", Str(topic))]);
  }

  method HandleAddInput(fs: SessionsFolder, req: Request) returns (reply: Reply)
    requires fs.View().Valid()
    modifies fs
    ensures Outcome(reply, fs.View()) == AddInput(old(fs.View()), req)
  {
    if !Given(req.sessionUid) {
      return Error(400, "session_uid is required");
    }
    if !Given(req.topicUid) {
      return Error(400, "topic_uid is required");
    }
    if !Given(req.text) {
      return Error(400, "text is required");
    }
    var session, topic, text := req.sessionUid.value, req.topicUid.value, req.text.value;
    var key := FileKey(session, TopicFile(topic));
    if key !in fs.files {
      return Error(404, "Topic " + topic + " not found in session " + session + ". Please call /topic first.");
    }
    var content := fs.files[key];
    var inputs := Get(content, "inputs");
    if !(inputs.Some? && inputs.value.List?) {
      return Crashed;
    }
    var items := inputs.value.items + [Str(text)];
    content := Set(content, "inputs", List(items));
    fs.Write(key, content);
    reply := Reply(200, [("message", Str("Text added to topic " + topic + " in session " + session)),
                         ("total_inputs", Int(|items|))]);
  }

  method HandleEndTopic(fs: SessionsFolder, req: Request) returns (reply: Reply)
    requires fs.View().Valid()
    modifies fs
    ensures Outcome(reply, fs.View()) == EndTopic(old(fs.View()), req)
  {
    if !Given(req.sessionUid) {
      return Error(400, "session_uid is required");
    }
    if !Given(req.topicUid) {
      return Error(400, "topic_uid is required");
    }
    var session, topic := req.sessionUid.value, req.topicUid.value;
    var from := FileKey(session, TopicFile(topic));
    if from !in fs.files {
      return Error(404, "Topic " + topic + " not found in session " + session + ".");
    }
    var to := FileKey(session, FinishedFile(topic));
    if to in fs.files {
      return Error(409, "Topic " + topic + " has already been marked as finished.");
    }
    fs.Rename(from, to);
    reply := Reply(200, [("message", Str("Topic " + topic + " marked as finished in session " + session)),
                         ("session_uid", Str(session)), ("topic_uid", Str(topic)),
                         ("new_filename", Str(FinishedFile(topic)))]);
  }
}

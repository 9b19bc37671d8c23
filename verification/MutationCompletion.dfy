/** Proof that a request's backend writes completed: a counter of attempts without an accepted
    acknowledgement. */
module MutationCompletion {
  import opened Options
  import opened Values
  import opened Hits
  import opened Markers
  import Aliases
  import opened Routes

  datatype Proof = Completed | CollectionBoolean

  /** Whether an acknowledgement proves the write done, not merely received. */
  predicate Accepts(proof: Proof, value: Json) {
    match proof
    case Completed =>
      (match Get(value, "result") case Some(r) => Get(r, "status") == Some(Str("completed")) case None => false)
    case CollectionBoolean => Get(value, "result") == Some(Json.Bool(true))
  }

  predicate AnyOf(path: string, cs: set<char>) {
    exists c :: c in cs && c in path
  }

  /** The backend writes the gateway may coordinate, and the proof each owes. */
  function Classify(verb: Verb, path: string): Option<Proof> {
    if AnyOf(path, {'?', '#', '%'}) then None
    else
      var p := Split(path, '/');
      if |p| < 3 || p[0] != "" || p[1] != "collections" || p[2] == "" then None
      else if |p| == 3 && (verb.PUT? || verb.DELETE?) then Some(CollectionBoolean)
      else if |p| == 4 && (p[3] == "points" || p[3] == "index") && verb.PUT? then Some(Completed)
      else if |p| == 5 && p[3] == "points" && (p[4] == "delete" || p[4] == "payload") && verb.POST? then Some(Completed)
      else None
  }

  /** The requests sent without an attempt. */
  predicate IsRead(verb: Verb, path: string) {
    if verb.GET? || verb.HEAD? then true
    else if !verb.POST? || AnyOf(path, {'#', '%'}) then false
    else
      var p := Split(Split(path, '?')[0], '/');
      && |p| >= 3 && p[0] == "" && p[1] == "collections" && p[2] != ""
      && ((|p| == 4 && (p[3] == "points" || p[3] == "facet"))
          || (|p| == 5 && p[3] == "points" && (p[4] == "count" || p[4] == "scroll" || p[4] == "query")))
  }

  lemma {:induction false} SplitAbsent(s: string, c: char)
    requires c !in s
    ensures Split(s, c) == [s]
  {
    if s != [] {
      assert s == [s[0]] + s[1..];
      SplitAbsent(s[1..], c);
    }
  }

  /** No request is both a tracked write and an untracked read. */
  lemma WritesAreNotReads(verb: Verb, path: string)
    requires Classify(verb, path).Some?
    ensures !IsRead(verb, path)
  {
    if verb.POST? {
      assert '?' !in path by { assert '?' in {'?', '#', '%'}; }
      SplitAbsent(path, '?');
    }
  }

  // ---------------------------------------------------------------- the gateway's own writes

  datatype Write =
    | CreateCollection(name: string) | DropCollection(name: string) | PutPoints(name: string) | PutFieldIndex(name: string)
    | DeletePoints(name: string) | SetPayload(name: string)

  function VerbOf(w: Write): Verb {
    match w
    case CreateCollection(_) => PUT case DropCollection(_) => DELETE case PutPoints(_) => PUT
    case PutFieldIndex(_) => PUT case DeletePoints(_) => POST case SetPayload(_) => POST
  }

  function PathOf(w: Write): string {
    "/collections/" + w.name + EndOf(w)
  }

  function EndOf(w: Write): string {
    match w
    case CreateCollection(_) => "" case DropCollection(_) => "" case PutPoints(_) => "/points"
    case PutFieldIndex(_) => "/index" case DeletePoints(_) => "/points/delete" case SetPayload(_) => "/points/payload"
  }

  function ProofOf(w: Write): Proof {
    if w.CreateCollection? || w.DropCollection? then CollectionBoolean else Completed
  }

  predicate Plain(s: string) {
    s != [] && forall c :: c in s ==> Aliases.Sanitized(c) == c
  }

  lemma CollectionNamesArePlain(index: string)
    ensures Plain(Aliases.CollectionName(index)) && Plain(Aliases.DocumentCollection(index))
  {
    assert forall c: char :: Aliases.Sanitized(Aliases.Sanitized(c)) == Aliases.Sanitized(c);
    var body := seq(|index|, i requires 0 <= i < |index| => Aliases.Sanitized(index[i]));
    forall c | c in Aliases.CollectionName(index)
      ensures Aliases.Sanitized(c) == c
    {
      var i :| 0 <= i < |Aliases.CollectionName(index)| && Aliases.CollectionName(index)[i] == c;
      if i >= 3 {
        assert c == body[i - 3];
      } else {
        assert c == "es_"[i];
      }
    }
  }

  lemma {:induction false} SplitHead(s: string, rest: string)
    requires '/' !in s
    ensures Split(s + "/" + rest, '/') == [s] + Split(rest, '/')
    decreases |s|
  {
    var whole := s + "/" + rest;
    if s == [] {
      assert whole[1..] == rest;
    } else {
      assert s == [s[0]] + s[1..];
      assert whole[1..] == s[1..] + "/" + rest && whole[0] == s[0];
      SplitHead(s[1..], rest);
    }
  }

  /** The segments after the collection name, and the text that spells them. */
  lemma PathSegments(name: string, tail: string, segments: seq<string>)
    requires Plain(name)
    requires if tail == "" then segments == [] else tail[0] == '/' && Split(tail[1..], '/') == segments
    ensures Split("/collections/" + name + tail, '/') == ["", "collections", name] + segments
  {
    hide Split;
    assert '/' !in name;
    var after := name + tail;
    if tail == "" {
      assert after == name;
      SplitAbsent(name, '/');
    } else {
      assert after == name + "/" + tail[1..];
      SplitHead(name, tail[1..]);
    }
    assert Split(after, '/') == [name] + segments;
    var root, none := "collections", "";
    assert '/' !in root;
    SplitHead(root, after);
    SplitHead(none, root + "/" + after);
    assert "/collections/" == "/" + root + "/";
    assert "/collections/" + name + tail == none + "/" + (root + "/" + after);
    assert [none] + ([root] + ([name] + segments)) == [none, root, name] + segments;
  }

  lemma TailSegments(w: Write)
    ensures match w
            case CreateCollection(_) => true
            case DropCollection(_) => true
            case PutPoints(_) => Split("points", '/') == ["points"]
            case PutFieldIndex(_) => Split("index", '/') == ["index"]
            case DeletePoints(_) => Split("points/delete", '/') == ["points", "delete"]
            case SetPayload(_) => Split("points/payload", '/') == ["points", "payload"]
  {
    hide Split;
    match w {
      case PutPoints(_) => SplitAbsent("points", '/');
      case PutFieldIndex(_) => SplitAbsent("index", '/');
      case DeletePoints(_) =>
        TwoParts("points", "delete");
        assert "points" + "/" + "delete" == "points/delete";
      case SetPayload(_) =>
        TwoParts("points", "payload");
        assert "points" + "/" + "payload" == "points/payload";
      case _ =>
    }
  }

  lemma TwoParts(s: string, t: string)
    requires '/' !in s && '/' !in t
    ensures Split(s + "/" + t, '/') == [s, t]
  {
    SplitHead(s, t);
    SplitAbsent(t, '/');
  }

  lemma NoControls(w: Write)
    requires Plain(w.name)
    ensures !AnyOf(PathOf(w), {'?', '#', '%'})
  {
    assert !AnyOf("/collections/", {'?', '#', '%'});
    assert !AnyOf(w.name, {'?', '#', '%'});
    EndControls(w);
    hide AnyOf, EndOf;
    NoneOfBoth("/collections/", w.name, {'?', '#', '%'});
    NoneOfBoth("/collections/" + w.name, EndOf(w), {'?', '#', '%'});
  }

  lemma NoneOfBoth(s: string, t: string, cs: set<char>)
    requires !AnyOf(s, cs) && !AnyOf(t, cs)
    ensures !AnyOf(s + t, cs)
  {
  }

  lemma EndControls(w: Write)
    ensures !AnyOf(EndOf(w), {'?', '#', '%'})
  {
  }

  /** Every write the gateway sends is tracked, with the proof its kind owes. */
  lemma GatewayWritesAreTracked(w: Write)
    requires Plain(w.name)
    ensures Classify(VerbOf(w), PathOf(w)) == Some(ProofOf(w))
    ensures !IsRead(VerbOf(w), PathOf(w))
  {
    hide Split, AnyOf, PathOf;
    NoControls(w);
    GatewayPathSegments(w);
    var p := Split(PathOf(w), '/');
    assert p[0] == "" && p[1] == "collections" && p[2] == w.name != "";
    WritesAreNotReads(VerbOf(w), PathOf(w));
  }

  function TailOf(w: Write): seq<string> {
    match w
    case CreateCollection(_) => [] case DropCollection(_) => [] case PutPoints(_) => ["points"]
    case PutFieldIndex(_) => ["index"] case DeletePoints(_) => ["points", "delete"] case SetPayload(_) => ["points", "payload"]
  }

  lemma GatewayPathSegments(w: Write)
    requires Plain(w.name)
    ensures Split(PathOf(w), '/') == ["", "collections", w.name] + TailOf(w)
  {
    hide Split, Plain;
    TailSegments(w);
    match w {
      case CreateCollection(name) => PathSegments(name, "", []);
      case DropCollection(name) => PathSegments(name, "", []);
      case PutPoints(name) =>
        assert "/points"[1..] == "points";
        PathSegments(name, "/points", ["points"]);
      case PutFieldIndex(name) =>
        assert "/index"[1..] == "index";
        PathSegments(name, "/index", ["index"]);
      case DeletePoints(name) =>
        assert "/points/delete"[1..] == "points/delete";
        PathSegments(name, "/points/delete", ["points", "delete"]);
      case SetPayload(name) =>
        assert "/points/payload"[1..] == "points/payload";
        PathSegments(name, "/points/payload", ["points", "payload"]);
    }
  }

  // ---------------------------------------------------------------- the counter

  /** What comes back for a request once it has been sent. */
  datatype Reply = Lost | Answered(success: bool, value: Json)

  predicate Proves(proof: Proof, reply: Reply) {
    reply.Answered? && reply.success && Get(reply.value, "status") == Some(Str("ok")) && Accepts(proof, reply.value)
  }

  datatype Call = Call(verb: Verb, path: string, body: Option<Json>, reply: Reply)

  predicate Waits(body: Option<Json>) {
    body.Some? && Get(body.value, "wait") == Some(Json.Bool(true))
  }

  /** Refused before anything is sent: unknown writes, and writes that would not wait. */
  predicate NotSent(call: Call) {
    match Classify(call.verb, call.path)
    case None => true
    case Some(proof) => proof.Completed? && !Waits(call.body)
  }

  predicate LeavesDoubt(call: Call) {
    !NotSent(call) && !Proves(Classify(call.verb, call.path).value, call.reply)
  }

  /** How many of these calls leave an attempt open. */
  function Doubts(calls: seq<Call>): nat {
    if calls == [] then 0 else Doubts(calls[..|calls| - 1]) + if LeavesDoubt(calls[|calls| - 1]) then 1 else 0
  }

  /** Sent, and answered with the proof its kind owes. */
  predicate Proved(call: Call) {
    Classify(call.verb, call.path).Some? && Proves(Classify(call.verb, call.path).value, call.reply)
  }

  lemma {:induction false} NoDoubts(calls: seq<Call>)
    ensures Doubts(calls) == 0 <==> forall k :: 0 <= k < |calls| ==> NotSent(calls[k]) || Proved(calls[k])
  {
    if calls != [] {
      var front := calls[..|calls| - 1];
      NoDoubts(front);
      assert forall k :: 0 <= k < |front| ==> front[k] == calls[k];
      hide NotSent, Proves, Classify;
    }
  }

  class Attempt {
    constructor () {}
  }

  class Tracker {
    var open: nat
    ghost var attempts: set<Attempt>

    ghost predicate Valid()
      reads this
    {
      open == |attempts|
    }

    constructor ()
      ensures Valid() && attempts == {}
    {
      open, attempts := 0, {};
    }

    method Begin() returns (a: Attempt)
      requires Valid()
      modifies this
      ensures Valid() && fresh(a) && attempts == old(attempts) + {a} && a !in old(attempts)
    {
      a := new Attempt();
      open := open + 1;
      attempts := attempts + {a};
    }

    /** Only the owner of an acknowledged attempt can clear it, once. */
    method Complete(a: Attempt)
      requires Valid() && a in attempts
      modifies this
      ensures Valid() && attempts == old(attempts) - {a}
    {
      attempts := attempts - {a};
      open := open - 1;
    }

    method IsComplete() returns (complete: bool)
      requires Valid()
      ensures complete <==> attempts == {}
    {
      complete := open == 0;
    }

    /** One coordinated write: the attempt outlives every outcome but an accepted acknowledgement. */
    method Mutation(call: Call) returns (ok: bool)
      requires Valid()
      modifies this
      ensures Valid() && old(attempts) <= attempts && fresh(attempts - old(attempts))
      ensures |attempts| == |old(attempts)| + if LeavesDoubt(call) then 1 else 0
      ensures ok <==> !NotSent(call) && !LeavesDoubt(call)
    {
      var proof := Classify(call.verb, call.path);
      if proof.None? {
        return false;
      }
      if proof.value.Completed? && !Waits(call.body) {
        return false;
      }
      var attempt := Begin();
      match call.reply {
        case Lost => return false;
        case Answered(success, value) =>
          if !success || Get(value, "status") != Some(Str("ok")) || !Accepts(proof.value, value) {
            return false;
          }
      }
      Complete(attempt);
      assert attempts == old(attempts);
      ok := true;
    }

    /** A request's writes one after another, and whether it may then release its claim: a request that
        began with nothing open may exactly when every write it sent was proved complete. */
    method Request(calls: seq<Call>) returns (oks: seq<bool>, complete: bool)
      requires Valid()
      modifies this
      ensures Valid() && old(attempts) <= attempts && |attempts| == |old(attempts)| + Doubts(calls)
      ensures |oks| == |calls| && forall k :: 0 <= k < |calls| ==> (oks[k] <==> !NotSent(calls[k]) && Proved(calls[k]))
      ensures complete <==> old(attempts) == {} && forall k :: 0 <= k < |calls| ==> NotSent(calls[k]) || Proved(calls[k])
    {
      hide NotSent, Proved, Classify;
      oks := [];
      for k := 0 to |calls|
        invariant Valid() && old(attempts) <= attempts && |attempts| == |old(attempts)| + Doubts(calls[..k])
        invariant |oks| == k && forall j :: 0 <= j < k ==> (oks[j] <==> !NotSent(calls[j]) && Proved(calls[j]))
      {
        var ok := Mutation(calls[k]);
        DoubtOrProof(calls[k]);
        assert calls[..k + 1][..k] == calls[..k];
        oks := oks + [ok];
      }
      assert calls[..|calls|] == calls;
      NoDoubts(calls);
      complete := IsComplete();
    }
  }

  lemma DoubtOrProof(call: Call)
    ensures LeavesDoubt(call) <==> !NotSent(call) && !Proved(call)
  {
  }

  // ---------------------------------------------------------------- what is proved, sent and read

  /** An acknowledgement is `{"result":{"status":"completed"}}`, or `{"result":true}` for collections, and
      it comes with a success status and `"status":"ok"`. */
  lemma ProofIs(proof: Proof, reply: Reply)
    ensures Proves(proof, reply) <==>
              && reply.Answered? && reply.success && reply.value.Obj?
              && "status" in reply.value.fields && reply.value.fields["status"] == Str("ok")
              && "result" in reply.value.fields
              && var result := reply.value.fields["result"];
                 if proof.CollectionBoolean? then result == Json.Bool(true)
                 else result.Obj? && "status" in result.fields && result.fields["status"] == Str("completed")
  {
  }

  /** Creating and dropping collections is always sent; every other write only when it asks to wait. */
  lemma SentIff(w: Write, body: Option<Json>, reply: Reply)
    requires Plain(w.name)
    ensures !NotSent(Call(VerbOf(w), PathOf(w), body, reply)) <==>
              || w.CreateCollection? || w.DropCollection?
              || (body.Some? && body.value.Obj? && "wait" in body.value.fields && body.value.fields["wait"] == Json.Bool(true))
  {
    GatewayWritesAreTracked(w);
    hide Classify, PathOf;
  }

  /** The backend reads the gateway sends to a collection. */
  datatype ReadCall = GetPoints | Facet | CountPoints | ScrollPoints | QueryPoints

  function ReadEnd(r: ReadCall): string {
    match r
    case GetPoints => "points" case Facet => "facet" case CountPoints => "points/count"
    case ScrollPoints => "points/scroll" case QueryPoints => "points/query"
  }

  function ReadPath(name: string, r: ReadCall): string {
    "/collections/" + name + "/" + ReadEnd(r)
  }

  /** Reads need no attempt, and could not be sent as writes. */
  lemma GatewayReadsAreUntracked(name: string, r: ReadCall)
    requires Plain(name)
    ensures IsRead(POST, ReadPath(name, r)) && Classify(POST, ReadPath(name, r)).None?
  {
    ReadSegments(name, r);
    NoReadControls(name, r);
    hide Split, ReadPath, Plain;
    SplitAbsent(ReadPath(name, r), '?');
    if Classify(POST, ReadPath(name, r)).Some? {
      WritesAreNotReads(POST, ReadPath(name, r));
    }
  }

  function ReadTail(r: ReadCall): seq<string> {
    match r
    case GetPoints => ["points"] case Facet => ["facet"] case CountPoints => ["points", "count"]
    case ScrollPoints => ["points", "scroll"] case QueryPoints => ["points", "query"]
  }

  lemma ReadSegments(name: string, r: ReadCall)
    requires Plain(name)
    ensures Split(ReadPath(name, r), '/') == ["", "collections", name] + ReadTail(r) && name != ""
  {
    ReadEndSegments(r);
    var tail := "/" + ReadEnd(r);
    assert tail[1..] == ReadEnd(r);
    hide Split, ReadEnd, ReadTail;
    PathSegments(name, tail, ReadTail(r));
    assert "/collections/" + name + tail == ReadPath(name, r);
  }

  lemma ReadEndSegments(r: ReadCall)
    ensures Split(ReadEnd(r), '/') == ReadTail(r)
  {
    hide Split;
    match r {
      case GetPoints => SplitAbsent("points", '/');
      case Facet => SplitAbsent("facet", '/');
      case CountPoints =>
        assert "points/count" == "points" + "/" + "count";
        TwoParts("points", "count");
      case ScrollPoints =>
        assert "points/scroll" == "points" + "/" + "scroll";
        TwoParts("points", "scroll");
      case QueryPoints =>
        assert "points/query" == "points" + "/" + "query";
        TwoParts("points", "query");
    }
  }

  lemma NoReadControls(name: string, r: ReadCall)
    requires Plain(name)
    ensures '?' !in ReadPath(name, r) && !AnyOf(ReadPath(name, r), {'#', '%'})
  {
    var cs := {'?', '#', '%'};
    assert !AnyOf("/collections/", cs) && !AnyOf("/", cs) && !AnyOf(name, cs) && !AnyOf(ReadEnd(r), cs);
    hide ReadEnd;
    NoneOfBoth("/collections/", name, cs);
    NoneOfBoth("/collections/" + name, "/", cs);
    NoneOfBoth("/collections/" + name + "/", ReadEnd(r), cs);
    assert '?' in cs && '#' in cs && '%' in cs;
  }
}

/** Rollout files: what inspect_and_rewrite reads from the first record, and what it changes. */
module Rollout {
  import opened Wrappers
  import opened Json

  /** serde_json, as far as rollouts use it. Bytes are chars. */
  datatype Codec = Codec(encode: Json -> string, decode: string -> Option<Json>)

  /** Encoding writes one line, and decoding undoes it. */
  ghost predicate Lawful(c: Codec) {
    forall v :: c.decode(c.encode(v)) == Some(v) && '\n' !in c.encode(v) && '\r' !in c.encode(v)
  }

  datatype Meta = Meta(id: string, cwd: Option<string>, provider: Option<string>, encrypted: bool)

  datatype Inspected = Inspected(meta: Meta, updated: string)

  /** The position of the first newline, or the length. */
  function FirstEnd(bytes: string): (p: nat)
    ensures p <= |bytes|
    ensures p < |bytes| ==> bytes[p] == '\n'
  {
    if bytes == [] || bytes[0] == '\n' then 0 else 1 + FirstEnd(bytes[1..])
  }

  function StripReturn(line: string): string {
    if line != [] && line[|line| - 1] == '\r' then line[..|line| - 1] else line
  }

  /** The first newline and everything after it. */
  function Tail(bytes: string): string {
    bytes[FirstEnd(bytes)..]
  }

  function Contains(bytes: string, part: string): bool
    decreases |bytes|
  {
    if |bytes| < |part| then false
    else bytes[..|part|] == part || (bytes != [] && Contains(bytes[1..], part))
  }

  predicate WindowAt(bytes: string, i: nat, part: string) {
    i + |part| <= |bytes| && bytes[i..i + |part|] == part
  }

  /** Some window of the bytes is the given part. */
  lemma {:induction false} ContainsExactly(bytes: string, part: string)
    ensures Contains(bytes, part) <==> exists i: nat :: WindowAt(bytes, i, part)
    decreases |bytes|
  {
    if |part| <= |bytes| {
      assert WindowAt(bytes, 0, part) <==> bytes[..|part|] == part;
      if bytes != [] {
        ContainsExactly(bytes[1..], part);
        forall i: nat ensures WindowAt(bytes[1..], i, part) <==> WindowAt(bytes, i + 1, part) {
          if i + 1 + |part| <= |bytes| {
            assert bytes[1..][i..i + |part|] == bytes[i + 1..i + 1 + |part|];
          }
        }
        forall i: nat | WindowAt(bytes, i, part) ensures Contains(bytes, part) {
          assert i > 0 ==> WindowAt(bytes[1..], i - 1, part);
        }
      }
    }
  }

  /** The session_meta record of a rollout, when its first line is one. */
  function Record(c: Codec, bytes: string): Option<Json> {
    var record := c.decode(StripReturn(bytes[..FirstEnd(bytes)]));
    if record.None? || StringField(record.value, "type") != Some("session_meta") then None
    else
      var payload := Field(record.value, "payload");
      if payload.None? || !payload.value.Obj? then None
      else
        var id := StringField(payload.value, "id");
        if id.None? || id.value == [] then None else record
  }

  function Payload(record: Json): Json {
    if Field(record, "payload").Some? then Field(record, "payload").value else Null
  }

  function MetaOf(record: Json, bytes: string): Meta {
    var payload := Payload(record);
    var id := StringField(payload, "id");
    Meta(if id.Some? then id.value else "", StringField(payload, "cwd"), StringField(payload, "model_provider"),
         Contains(bytes, "encrypted_content"))
  }

  function Aligned(record: Json, provider: string): Json
    requires record.Obj? && Payload(record).Obj?
  {
    With(record, "payload", With(Payload(record), "model_provider", Str(provider)))
  }

  /** inspect_and_rewrite; None is its error. */
  function Inspect(c: Codec, bytes: string, target: Option<string>): Option<Inspected> {
    var record := Record(c, bytes);
    if record.None? then None
    else
      var written := if target.Some? then Aligned(record.value, target.value) else record.value;
      Some(Inspected(MetaOf(record.value, bytes), c.encode(written) + Tail(bytes)))
  }

  lemma {:induction false} FirstEndIs(line: string, tail: string)
    requires '\n' !in line && (tail == [] || tail[0] == '\n')
    ensures FirstEnd(line + tail) == |line|
  {
    if line == [] {
      assert line + tail == tail;
    } else {
      assert (line + tail)[1..] == line[1..] + tail;
      FirstEndIs(line[1..], tail);
    }
  }

  lemma WrittenRecord(c: Codec, v: Json, tail: string)
    requires Lawful(c) && (tail == [] || tail[0] == '\n')
    ensures var bytes := c.encode(v) + tail;
            && Tail(bytes) == tail
            && c.decode(StripReturn(bytes[..FirstEnd(bytes)])) == Some(v)
  {
    var line := c.encode(v);
    assert c.decode(line) == Some(v);
    FirstEndIs(line, tail);
    assert (line + tail)[..|line|] == line && (line + tail)[|line|..] == tail;
  }

  lemma AlignedTwice(record: Json, provider: string)
    requires record.Obj? && Payload(record).Obj?
    ensures Aligned(record, provider).Obj? && Payload(Aligned(record, provider)).Obj?
    ensures Aligned(Aligned(record, provider), provider) == Aligned(record, provider)
  {
    var payload := With(Payload(record), "model_provider", Str(provider));
    assert Payload(Aligned(record, provider)) == payload;
    assert payload.fields["model_provider" := Str(provider)] == payload.fields;
    var aligned := Aligned(record, provider);
    assert aligned.fields["payload" := payload] == aligned.fields;
  }

  /** A rewritten rollout is a rollout of the same thread with the target provider; all records after the
      first are untouched, and rewriting it again changes nothing. */
  lemma RewriteAligns(c: Codec, bytes: string, provider: string)
    requires Lawful(c) && Inspect(c, bytes, Some(provider)).Some?
    ensures var before := Inspect(c, bytes, Some(provider)).value;
            var again := Inspect(c, before.updated, Some(provider));
            && again.Some?
            && again.value.meta.id == before.meta.id
            && again.value.meta.cwd == before.meta.cwd
            && again.value.meta.provider == Some(provider)
            && again.value.updated == before.updated
            && Tail(before.updated) == Tail(bytes)
  {
    hide FirstEnd, StripReturn, Contains;
    var record := Record(c, bytes).value;
    var aligned := Aligned(record, provider);
    WrittenRecord(c, aligned, Tail(bytes));
    assert StringField(Payload(aligned), "id") == StringField(Payload(record), "id");
    assert StringField(Payload(aligned), "cwd") == StringField(Payload(record), "cwd");
    assert StringField(aligned, "type") == StringField(record, "type");
    AlignedTwice(record, provider);
  }

  /** Reading does not depend on what one would rewrite to. */
  lemma MetaIgnoresTarget(c: Codec, bytes: string, provider: string)
    ensures var a, b := Inspect(c, bytes, None), Inspect(c, bytes, Some(provider));
            a.Some? == b.Some? && (a.Some? ==> a.value.meta == b.value.meta)
  {
    hide FirstEnd, StripReturn, Contains;
  }

  // ---- What is read and what is kept ---------------------------------------------------------------------

  /** The member name of object v is x. */
  predicate Member(v: Json, name: string, x: Json) {
    v.Obj? && name in v.fields && v.fields[name] == x
  }

  /** The bytes up to the first newline, without a carriage return before it. */
  ghost predicate FirstLine(bytes: string, line: string) {
    exists end: nat ::
      && end <= |bytes| && '\n' !in bytes[..end] && (end == |bytes| || bytes[end] == '\n')
      && line == if end > 0 && bytes[end - 1] == '\r' then bytes[..end - 1] else bytes[..end]
  }

  lemma {:induction false} FirstEndExactly(bytes: string)
    ensures '\n' !in bytes[..FirstEnd(bytes)] && (FirstEnd(bytes) == |bytes| || bytes[FirstEnd(bytes)] == '\n')
  {
    if bytes != [] && bytes[0] != '\n' {
      FirstEndExactly(bytes[1..]);
      assert bytes[..FirstEnd(bytes)] == [bytes[0]] + bytes[1..][..FirstEnd(bytes[1..])];
    }
  }

  lemma NoneBefore(bytes: string, end: nat)
    requires end <= |bytes| && '\n' !in bytes[..end]
    ensures forall i :: 0 <= i < end ==> bytes[i] != '\n'
  {
    forall i | 0 <= i < end ensures bytes[i] != '\n' {
      assert bytes[..end][i] == bytes[i];
    }
  }

  lemma FirstLineIs(bytes: string)
    ensures FirstLine(bytes, StripReturn(bytes[..FirstEnd(bytes)]))
    ensures forall line :: FirstLine(bytes, line) ==> line == StripReturn(bytes[..FirstEnd(bytes)])
  {
    hide FirstEnd;
    FirstEndExactly(bytes);
    var at := FirstEnd(bytes);
    forall end: nat | end <= |bytes| && '\n' !in bytes[..end] && (end == |bytes| || bytes[end] == '\n') ensures end == at {
      NoneBefore(bytes, end);
      NoneBefore(bytes, at);
    }
    assert at > 0 ==> bytes[..at][at - 1] == bytes[at - 1] && bytes[..at][..at - 1] == bytes[..at - 1];
  }

  /** record is a session_meta record of the thread id: type, payload and a payload.id that is not empty. */
  ghost predicate Describes(record: Json, payload: Json, id: string) {
    && Member(record, "type", Str("session_meta")) && Member(record, "payload", payload) && payload.Obj?
    && Member(payload, "id", Str(id)) && id != []
  }

  function MemberText(v: Json, name: string): Option<string> {
    if v.Obj? && name in v.fields && v.fields[name].Str? then Some(v.fields[name].s) else None
  }

  /** The first line of the rollout is that record. */
  ghost predicate Opens(c: Codec, bytes: string, record: Json, payload: Json, id: string) {
    (exists line :: FirstLine(bytes, line) && c.decode(line) == Some(record)) && Describes(record, payload, id)
  }

  /** The members of a rewritten record: those of the record, but for the provider within the payload. */
  predicate SameButProvider(record: Json, payload: Json, after: Json, provider: string) {
    && record.Obj? && payload.Obj?
    && after == Obj(record.fields["payload" := Obj(payload.fields["model_provider" := Str(provider)])])
  }

  /** A rollout can be read exactly when its first line is a session_meta record with an id. Thread id, directory and
      provider are then those of its payload; it counts as encrypted when the marker occurs; and it is rewritten by
      writing that record with the target provider in front of the rest. */
  lemma InspectExactly(c: Codec, bytes: string, provider: string)
    ensures Inspect(c, bytes, Some(provider)).Some? <==> exists record, payload, id :: Opens(c, bytes, record, payload, id)
    ensures forall record, payload, id :: Opens(c, bytes, record, payload, id) ==>
              var seen := Inspect(c, bytes, Some(provider));
              && seen.Some?
              && seen.value.meta == Meta(id, MemberText(payload, "cwd"), MemberText(payload, "model_provider"),
                                         Contains(bytes, "encrypted_content"))
              && exists after :: SameButProvider(record, payload, after, provider) && seen.value.updated == c.encode(after) + Tail(bytes)
  {
    hide FirstEnd, Contains, Tail, FirstLine, StripReturn;
    FirstLineIs(bytes);
    var line := StripReturn(bytes[..FirstEnd(bytes)]);
    if Record(c, bytes).Some? {
      var record := Record(c, bytes).value;
      var payload := Field(record, "payload").value;
      assert Opens(c, bytes, record, payload, StringField(payload, "id").value) by {
        assert Member(record, "payload", payload);
      }
    }
    forall record, payload, id | Opens(c, bytes, record, payload, id)
      ensures var seen := Inspect(c, bytes, Some(provider));
              && seen.Some?
              && seen.value.meta == Meta(id, MemberText(payload, "cwd"), MemberText(payload, "model_provider"),
                                         Contains(bytes, "encrypted_content"))
              && exists after :: SameButProvider(record, payload, after, provider) && seen.value.updated == c.encode(after) + Tail(bytes)
    {
      assert c.decode(line) == Some(record);
      OpensRecord(c, bytes, record, payload, id, line);
      assert SameButProvider(record, payload, Aligned(record, provider), provider);
    }
  }

  lemma OpensRecord(c: Codec, bytes: string, record: Json, payload: Json, id: string, line: string)
    requires line == StripReturn(bytes[..FirstEnd(bytes)]) && c.decode(line) == Some(record) && Describes(record, payload, id)
    ensures Record(c, bytes) == Some(record) && Payload(record) == payload && StringField(payload, "id") == Some(id)
  {
    hide FirstEnd, StripReturn;
  }
}

/** Write admission: the ordered guards a message passes before the store
    hands it to the commit log. */
module PutMessageAdmission {
  import opened StoreTypes

  /** Longest topic a record can carry (its length is stored in one signed byte). */
  const MaxTopicLength: int := 127
  /** Longest properties string a record can carry (stored in a signed short). */
  const MaxPropertiesLength: int := 32767

  /** The parts of a message the admission guards look at; the properties
      string is absent (null) when the message has no properties. */
  datatype Message = Message(topic: string, queueId: int, body: seq<bv8>, propertiesString: Option<string>, sysFlag: bv32)

  /** Either the store rejects the message with a status, or it forwards it
      to the commit log, whose own result the caller then receives. */
  datatype Admission = Rejected(status: PutMessageStatus) | Forwarded

  predicate AcceptsWrites(shutdown: bool, role: BrokerRole, writeable: bool)
  {
    !shutdown && role != Slave && writeable
  }

  /** Length of a string as Java counts it, in UTF-16 code units: a
      character outside the Basic Multilingual Plane takes two. */
  function Utf16Length(s: string): (n: nat)
    ensures |s| <= n <= 2 * |s|
    ensures n == |s| <==> forall i :: 0 <= i < |s| ==> (s[i] as int) < 0x10000
  {
    if s == [] then 0
    else Utf16Length(s[..|s| - 1]) + (if (s[|s| - 1] as int) < 0x10000 then 1 else 2)
  }

  /** The topic and the properties string fit the record's length fields,
      measured in UTF-16 code units. */
  predicate FitsRecordFormat(msg: Message)
  {
    Utf16Length(msg.topic) <= MaxTopicLength
    && (msg.propertiesString.None? || Utf16Length(msg.propertiesString.value) <= MaxPropertiesLength)
  }

  /** The guard chain in front of the commit log: a shut-down store, a slave
      or a store flagged not writeable answers SERVICE_NOT_AVAILABLE; an
      oversized topic or properties string answers MESSAGE_ILLEGAL; only a
      message that passes every guard reaches the commit log. */
  function Admit(shutdown: bool, role: BrokerRole, writeable: bool, msg: Message): (a: Admission)
    ensures a == Forwarded <==> AcceptsWrites(shutdown, role, writeable) && FitsRecordFormat(msg)
    ensures a == Rejected(ServiceNotAvailable) <==> !AcceptsWrites(shutdown, role, writeable)
    ensures a == Rejected(MessageIllegal) <==> AcceptsWrites(shutdown, role, writeable) && !FitsRecordFormat(msg)
  {
    if shutdown then Rejected(ServiceNotAvailable)
    else if role == Slave then Rejected(ServiceNotAvailable)
    else if !writeable then Rejected(ServiceNotAvailable)
    else if Utf16Length(msg.topic) > MaxTopicLength then Rejected(MessageIllegal)
    else if msg.propertiesString.Some? && Utf16Length(msg.propertiesString.value) > MaxPropertiesLength then Rejected(MessageIllegal)
    else Forwarded
  }

  /** A guard: when `fails` holds the chain stops with `status`. */
  datatype Guard = Guard(fails: bool, status: PutMessageStatus)

  /** The status of the first failing guard of a chain, if any. */
  function FirstFailure(guards: seq<Guard>): Option<PutMessageStatus>
  {
    if guards == [] then None
    else if guards[0].fails then Some(guards[0].status)
    else FirstFailure(guards[1..])
  }

  /** The five guards of putMessage, in the order the store evaluates them. */
  function PutGuards(shutdown: bool, role: BrokerRole, writeable: bool, msg: Message): seq<Guard>
  {
    [ Guard(shutdown, ServiceNotAvailable),
      Guard(role == Slave, ServiceNotAvailable),
      Guard(!writeable, ServiceNotAvailable),
      Guard(Utf16Length(msg.topic) > MaxTopicLength, MessageIllegal),
      Guard(msg.propertiesString.Some? && Utf16Length(msg.propertiesString.value) > MaxPropertiesLength, MessageIllegal) ]
  }

  /** Admission is exactly "stop at the first failing guard": the message
      reaches the commit log iff no guard fails. */
  lemma AdmitIsFirstFailingGuard(shutdown: bool, role: BrokerRole, writeable: bool, msg: Message)
    ensures Admit(shutdown, role, writeable, msg)
         == match FirstFailure(PutGuards(shutdown, role, writeable, msg))
            case None => Forwarded
            case Some(s) => Rejected(s)
  {
    var g := PutGuards(shutdown, role, writeable, msg);
    assert g[1..] == g[1..][0..] && g[1..][1..] == g[2..] && g[2..][1..] == g[3..];
    assert g[3..][1..] == g[4..] && g[4..][1..] == [];
    var r4 := if g[4].fails then Some(g[4].status) else None;
    assert FirstFailure(g[4..]) == r4;
    var r3 := if g[3].fails then Some(g[3].status) else r4;
    assert FirstFailure(g[3..]) == r3;
    var r2 := if g[2].fails then Some(g[2].status) else r3;
    assert FirstFailure(g[2..]) == r2;
    var r1 := if g[1].fails then Some(g[1].status) else r2;
    assert FirstFailure(g[1..]) == r1;
    assert FirstFailure(g) == if g[0].fails then Some(g[0].status) else r1;
  }

  /** Availability dominates format: whatever the message, a shut-down
      store, a slave or a read-only store never reports MESSAGE_ILLEGAL. */
  lemma UnavailableStoreIgnoresMessage(shutdown: bool, role: BrokerRole, writeable: bool, m1: Message, m2: Message)
    requires !AcceptsWrites(shutdown, role, writeable)
    ensures Admit(shutdown, role, writeable, m1) == Admit(shutdown, role, writeable, m2) == Rejected(ServiceNotAvailable)
  {
  }
}

/**
 * The result mapping of `get_snmp_data` (modul1.py and modul2.py): one SNMP GET
 * reply, as pysnmp hands it back, becomes either the first bound value or `None`.
 * The transport itself (engine, UDP target, community data) is not modelled: each
 * reply is given as an input.
 */
module Snmp {
  import opened Wrappers

  /** The OID of sysName, the device's administratively assigned name. */
  const SYS_NAME_OID := "1.3.6.1.2.1.1.5.0"
  /** The OID of sysDescr, the device's free-text description. */
  const SYS_DESCR_OID := "1.3.6.1.2.1.1.1.0"

  /** One variable binding: the OID and its value, as `prettyPrint()` renders it. */
  datatype VarBind = VarBind(oid: string, value: string)

  /**
   * The 4-tuple a GET returns: an error indication (a transport-level failure such
   * as a timeout, or none), the protocol error status (0 for noError), the index of
   * the offending binding, and the variable bindings.
   */
  datatype Reply = Reply(
    errorIndication: Option<string>,
    errorStatus: nat,
    errorIndex: nat,
    varBinds: seq<VarBind>)

  /** The request never got a usable answer (the `errorIndication` branch). */
  predicate TransportFailed(reply: Reply)
  {
    reply.errorIndication.Some?
  }

  /** The agent answered with a non-zero error status (the `errorStatus` branch). */
  predicate ProtocolFailed(reply: Reply)
  {
    reply.errorIndication.None? && reply.errorStatus != 0
  }

  /** The value of the first binding; a loop over no bindings falls through to `None`. */
  function FirstValue(varBinds: seq<VarBind>): (r: Option<string>)
    ensures r.None? <==> varBinds == []
    ensures r.Some? ==> r.value == varBinds[0].value
  {
    if varBinds == [] then None else Some(varBinds[0].value)
  }

  /**
   * What `get_snmp_data` returns for `reply`: `None` on either kind of failure and when
   * there is no binding, otherwise the first bound value; later bindings are ignored.
   */
  function GetSnmpData(reply: Reply): (r: Option<string>)
    ensures TransportFailed(reply) ==> r == None
    ensures ProtocolFailed(reply) ==> r == None
    ensures !TransportFailed(reply) && !ProtocolFailed(reply) ==> (r == None <==> reply.varBinds == [])
    ensures r.Some? ==> r.value == reply.varBinds[0].value
  {
    if reply.errorIndication.Some? then None
    else if reply.errorStatus != 0 then None
    else FirstValue(reply.varBinds)
  }

  /** The reply of a successful single-OID GET, as the agent would send it. */
  function Answer(oid: string, value: string): Reply
  {
    Reply(None, 0, 0, [VarBind(oid, value)])
  }

  /** A successful reply yields exactly its value, whatever bindings follow the first. */
  lemma AnswerRoundTrip(oid: string, value: string, extra: seq<VarBind>)
    ensures GetSnmpData(Answer(oid, value)) == Some(value)
    ensures GetSnmpData(Answer(oid, value).(varBinds := Answer(oid, value).varBinds + extra)) == Some(value)
  {
  }
}

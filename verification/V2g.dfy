// Messages and enumerations of LibIso15118/isoTypes.h that the two state machines exchange.

module V2g {
  import opened PhysicalValues
  import opened Words

  datatype Option<+T> = None | Some(value: T)

  /** A session id is the byte array of a message header. */
  type SessionId = seq<byte>

  datatype TransferMode =
    | AC_single_phase_core
    | AC_three_phase_core
    | DC_core
    | DC_extended
    | DC_combo_core
    | DC_unique

  datatype Processing = ProcessingFinished | ProcessingOngoing | WaitingForCustomer

  datatype ResponseCode = OK | OK_NewSessionEstablished | NotOk(code: nat)

  datatype CpState = A_Open | B_Connected | C_Ready | D_ReadyVentilation | E_ShutDown | F_Error | Offline

  datatype Progress = Start | Stop

  datatype Dialect = Dialect(protocolNamespace: string, schemaId: nat)

  const ISO_2013: string := "urn:iso:15118:2:2013:MsgDef"
  const OWN_SCHEMA: nat := 10

  const SECURITY_TLS: nat := 0x00
  const SECURITY_TCP: nat := 0x10
  const TRANSPORT_TCP: nat := 0x00

  datatype Kind =
    | KEmpty
    | KSdp
    | KV2s
    | KAppProtocol
    | KSessionSetup
    | KServiceDiscovery
    | KPaymentServiceSelection
    | KAuthorization
    | KChargeParameterDiscovery
    | KPowerDelivery
    | KChargingStatus
    | KSessionStop
    | KCableCheck
    | KPreCharge
    | KCurrentDemand
    | KWeldingDetection
    | KServiceDetail
    | KOther

  /** Only the content that either side looks at. Empty is a cleared or undecodable message, the two
      Other messages stand for the types neither side implements. */
  datatype Message =
    | Empty
    | V2s
    | SdpReq(security: nat)
    | SdpRes(resSecurity: nat, transport: nat)
    | AppProtocolReq(list: seq<Dialect>)
    | AppProtocolRes(success: bool, schemaId: nat)
    | SessionSetupReq(id: SessionId)
    | SessionSetupRes(id: SessionId, code: ResponseCode)
    | ServiceDiscoveryReq(id: SessionId)
    | ServiceDiscoveryRes(id: SessionId, code: ResponseCode, modes: seq<TransferMode>)
    | PaymentServiceSelectionReq(id: SessionId)
    | PaymentServiceSelectionRes(id: SessionId, code: ResponseCode)
    | AuthorizationReq(id: SessionId)
    | AuthorizationRes(id: SessionId, code: ResponseCode, processing: Processing)
    | ChargeParameterDiscoveryReq(id: SessionId, mode: TransferMode)
    | ChargeParameterDiscoveryRes(id: SessionId, code: ResponseCode)
    | PowerDeliveryReq(id: SessionId, mode: TransferMode, progress: Progress)
    | PowerDeliveryRes(id: SessionId, code: ResponseCode)
    | ChargingStatusReq(id: SessionId)
    | ChargingStatusRes(id: SessionId, code: ResponseCode)
    | SessionStopReq(id: SessionId)
    | SessionStopRes(id: SessionId, code: ResponseCode)
    | CableCheckReq(id: SessionId)
    | CableCheckRes(id: SessionId, code: ResponseCode, processing: Processing)
    | PreChargeReq(id: SessionId, voltage: PhysicalValue)
    | PreChargeRes(id: SessionId, code: ResponseCode, voltage: PhysicalValue)
    | CurrentDemandReq(id: SessionId, current: PhysicalValue, voltage: PhysicalValue)
    | CurrentDemandRes(id: SessionId, code: ResponseCode, current: PhysicalValue)
    | WeldingDetectionReq(id: SessionId)
    | WeldingDetectionRes(id: SessionId, code: ResponseCode)
    | ServiceDetailReq(id: SessionId)
    | ServiceDetailRes(id: SessionId, code: ResponseCode)
    | OtherReq
    | OtherRes

  function KindOf(m: Message): Kind {
    match m
    case Empty => KEmpty
    case V2s => KV2s
    case SdpReq(_) => KSdp
    case SdpRes(_, _) => KSdp
    case AppProtocolReq(_) => KAppProtocol
    case AppProtocolRes(_, _) => KAppProtocol
    case SessionSetupReq(_) => KSessionSetup
    case SessionSetupRes(_, _) => KSessionSetup
    case ServiceDiscoveryReq(_) => KServiceDiscovery
    case ServiceDiscoveryRes(_, _, _) => KServiceDiscovery
    case PaymentServiceSelectionReq(_) => KPaymentServiceSelection
    case PaymentServiceSelectionRes(_, _) => KPaymentServiceSelection
    case AuthorizationReq(_) => KAuthorization
    case AuthorizationRes(_, _, _) => KAuthorization
    case ChargeParameterDiscoveryReq(_, _) => KChargeParameterDiscovery
    case ChargeParameterDiscoveryRes(_, _) => KChargeParameterDiscovery
    case PowerDeliveryReq(_, _, _) => KPowerDelivery
    case PowerDeliveryRes(_, _) => KPowerDelivery
    case ChargingStatusReq(_) => KChargingStatus
    case ChargingStatusRes(_, _) => KChargingStatus
    case SessionStopReq(_) => KSessionStop
    case SessionStopRes(_, _) => KSessionStop
    case CableCheckReq(_) => KCableCheck
    case CableCheckRes(_, _, _) => KCableCheck
    case PreChargeReq(_, _) => KPreCharge
    case PreChargeRes(_, _, _) => KPreCharge
    case CurrentDemandReq(_, _, _) => KCurrentDemand
    case CurrentDemandRes(_, _, _) => KCurrentDemand
    case WeldingDetectionReq(_) => KWeldingDetection
    case WeldingDetectionRes(_, _) => KWeldingDetection
    case ServiceDetailReq(_) => KServiceDetail
    case ServiceDetailRes(_, _) => KServiceDetail
    case OtherReq => KOther
    case OtherRes => KOther
  }

  predicate IsRequest(m: Message) {
    || m.SdpReq? || m.AppProtocolReq? || m.SessionSetupReq? || m.ServiceDiscoveryReq?
    || m.PaymentServiceSelectionReq? || m.AuthorizationReq? || m.ChargeParameterDiscoveryReq?
    || m.PowerDeliveryReq? || m.ChargingStatusReq? || m.SessionStopReq? || m.CableCheckReq?
    || m.PreChargeReq? || m.CurrentDemandReq? || m.WeldingDetectionReq? || m.ServiceDetailReq?
    || m.OtherReq?
  }

  /** Cleared messages and V2S frames carry the response mode. */
  predicate IsResponse(m: Message) {
    !IsRequest(m)
  }

  /** The session id in the header, for the messages that have one. */
  function HeaderId(m: Message): Option<SessionId> {
    match m
    case SessionSetupReq(id) => Some(id)
    case SessionSetupRes(id, _) => Some(id)
    case ServiceDiscoveryReq(id) => Some(id)
    case ServiceDiscoveryRes(id, _, _) => Some(id)
    case PaymentServiceSelectionReq(id) => Some(id)
    case PaymentServiceSelectionRes(id, _) => Some(id)
    case AuthorizationReq(id) => Some(id)
    case AuthorizationRes(id, _, _) => Some(id)
    case ChargeParameterDiscoveryReq(id, _) => Some(id)
    case ChargeParameterDiscoveryRes(id, _) => Some(id)
    case PowerDeliveryReq(id, _, _) => Some(id)
    case PowerDeliveryRes(id, _) => Some(id)
    case ChargingStatusReq(id) => Some(id)
    case ChargingStatusRes(id, _) => Some(id)
    case SessionStopReq(id) => Some(id)
    case SessionStopRes(id, _) => Some(id)
    case CableCheckReq(id) => Some(id)
    case CableCheckRes(id, _, _) => Some(id)
    case PreChargeReq(id, _) => Some(id)
    case PreChargeRes(id, _, _) => Some(id)
    case CurrentDemandReq(id, _, _) => Some(id)
    case CurrentDemandRes(id, _, _) => Some(id)
    case WeldingDetectionReq(id) => Some(id)
    case WeldingDetectionRes(id, _) => Some(id)
    case ServiceDetailReq(id) => Some(id)
    case ServiceDetailRes(id, _) => Some(id)
    case _ => None
  }

  predicate PilotReady(c: CpState) {
    c == C_Ready || c == D_ReadyVentilation
  }
}

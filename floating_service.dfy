/**
 * The overlay controller on the JavaScript side
 * (src/services/FloatingService.ts): one `isRunning` flag driven by the
 * answers of the native bridge. The platform and the presence of the bridge
 * are fixed when the service is built; each bridge call's answer is a
 * parameter, and the calls made are recorded in a trace.
 */
module Floating {
  import opened Messages

  /** What an awaited bridge call produced: a boolean, or a thrown error. */
  datatype BridgeReply = Returned(value: bool) | Threw

  /** A call into the native module; the message list travels as its serialisation. */
  datatype BridgeCall =
    | CheckOverlayPermission
    | RequestOverlayPermission
    | StartFloatingWidget(messages: seq<BikeMessage>)
    | StopFloatingWidget
    | UpdateMessages(messages: seq<BikeMessage>)
    | MinimizeApp

  /** The boolean an awaited call yields inside the service's try/catch: a throw becomes false. */
  function Outcome(reply: BridgeReply): (b: bool)
    ensures b <==> reply == Returned(true)
  {
    reply.Returned? && reply.value
  }

  class FloatingService {
    /** `Platform.OS === 'android'`. */
    const isAndroid: bool
    /** Whether `NativeModules.BikeMessengerModule` is registered (only consulted on Android). */
    const hasNativeModule: bool
    var isRunning: bool
    var calls: seq<BridgeCall>

    /** The bridge is usable only on Android with the module registered. */
    predicate BridgeAvailable() {
      isAndroid && hasNativeModule
    }

    /** The overlay can only be believed running if the bridge exists to have started it. */
    predicate Valid()
      reads this
    {
      isRunning ==> BridgeAvailable()
    }

    constructor (isAndroid: bool, hasNativeModule: bool)
      ensures this.isAndroid == isAndroid && this.hasNativeModule == hasNativeModule
      ensures !isRunning && calls == []
      ensures Valid()
    {
      this.isAndroid := isAndroid;
      this.hasNativeModule := hasNativeModule;
      isRunning := false;
      calls := [];
    }

    /** hasOverlayPermission: false without a bridge or when the bridge throws. */
    method HasOverlayPermission(reply: BridgeReply) returns (r: bool)
      modifies this
      ensures !BridgeAvailable() ==> !r && calls == old(calls)
      ensures BridgeAvailable() ==> r == Outcome(reply) && calls == old(calls) + [CheckOverlayPermission]
      ensures isRunning == old(isRunning)
    {
      if !BridgeAvailable() {
        return false;
      }
      calls := calls + [CheckOverlayPermission];
      r := Outcome(reply);
    }

    /** requestOverlayPermission: a fire-and-forget call, made only when the bridge exists. */
    method RequestOverlayPermission()
      modifies this
      ensures calls == if BridgeAvailable() then old(calls) + [BridgeCall.RequestOverlayPermission] else old(calls)
      ensures isRunning == old(isRunning)
    {
      if BridgeAvailable() {
        calls := calls + [BridgeCall.RequestOverlayPermission];
      }
    }

    /**
     * startFloating: the running flag becomes exactly what the bridge
     * answered; a throw or a missing bridge gives false and leaves it alone.
     */
    method StartFloating(messages: seq<BikeMessage>, reply: BridgeReply) returns (r: bool)
      requires Valid()
      modifies this
      ensures Valid()
      ensures !BridgeAvailable() ==> !r && isRunning == old(isRunning) && calls == old(calls)
      ensures BridgeAvailable() ==> calls == old(calls) + [StartFloatingWidget(messages)]
      ensures BridgeAvailable() && reply.Returned? ==> r == reply.value && isRunning == reply.value
      ensures reply.Threw? ==> !r && isRunning == old(isRunning)
    {
      if !BridgeAvailable() {
        return false;
      }
      calls := calls + [StartFloatingWidget(messages)];
      match reply
      case Returned(success) =>
        isRunning := success;
        r := success;
      case Threw =>
        r := false;
    }

    /**
     * stopFloating: a successful stop clears the running flag and a refused
     * one sets it; a throw or a missing bridge gives false and leaves it alone.
     */
    method StopFloating(reply: BridgeReply) returns (r: bool)
      requires Valid()
      modifies this
      ensures Valid()
      ensures !BridgeAvailable() ==> !r && isRunning == old(isRunning) && calls == old(calls)
      ensures BridgeAvailable() ==> calls == old(calls) + [StopFloatingWidget]
      ensures BridgeAvailable() && reply.Returned? ==> r == reply.value && isRunning == !reply.value
      ensures reply.Threw? ==> !r && isRunning == old(isRunning)
    {
      if !BridgeAvailable() {
        return false;
      }
      calls := calls + [StopFloatingWidget];
      match reply
      case Returned(success) =>
        isRunning := !success;
        r := success;
      case Threw =>
        r := false;
    }

    /**
     * updateMessages: the bridge is called only while running, the answer is
     * passed through (a throw as false), and the running flag never changes.
     */
    method UpdateMessages(messages: seq<BikeMessage>, reply: BridgeReply) returns (r: bool)
      modifies this
      ensures isRunning == old(isRunning)
      ensures !(BridgeAvailable() && isRunning) ==> !r && calls == old(calls)
      ensures BridgeAvailable() && isRunning ==>
                r == Outcome(reply) && calls == old(calls) + [BridgeCall.UpdateMessages(messages)]
    {
      if !BridgeAvailable() || !isRunning {
        return false;
      }
      calls := calls + [BridgeCall.UpdateMessages(messages)];
      r := Outcome(reply);
    }

    /** minimizeApp: a fire-and-forget call, made only when the bridge exists. */
    method MinimizeApp()
      modifies this
      ensures calls == if BridgeAvailable() then old(calls) + [BridgeCall.MinimizeApp] else old(calls)
      ensures isRunning == old(isRunning)
    {
      if BridgeAvailable() {
        calls := calls + [BridgeCall.MinimizeApp];
      }
    }

    method GetIsRunning() returns (r: bool)
      ensures r == isRunning
    {
      r := isRunning;
    }

    /** isSupported looks at the platform only: not at the bridge, not at the running flag. */
    method IsSupported() returns (r: bool)
      ensures r == isAndroid
    {
      r := isAndroid;
    }
  }

  /**
   * A start the bridge accepts followed by a stop it accepts leaves the
   * overlay not running, after which an update makes no bridge call.
   */
  method StartStopUpdate(s: FloatingService, messages: seq<BikeMessage>)
    requires s.Valid() && s.BridgeAvailable()
    modifies s
    ensures !s.isRunning
    ensures s.calls == old(s.calls) + [StartFloatingWidget(messages), StopFloatingWidget]
  {
    var started := s.StartFloating(messages, Returned(true));
    assert s.isRunning;
    var stopped := s.StopFloating(Returned(true));
    var updated := s.UpdateMessages(messages, Returned(true));
    assert !updated;
  }

  /** Without Android or without the module, no operation ever reaches the bridge. */
  method NoBridgeNoCalls(s: FloatingService, messages: seq<BikeMessage>, reply: BridgeReply)
    requires s.Valid() && !s.BridgeAvailable()
    modifies s
    ensures s.calls == old(s.calls) && !s.isRunning
  {
    var a := s.HasOverlayPermission(reply);
    s.RequestOverlayPermission();
    var b := s.StartFloating(messages, reply);
    var c := s.UpdateMessages(messages, reply);
    var d := s.StopFloating(reply);
    s.MinimizeApp();
  }
}

/** The X11 tablet support of krita/ui/input/wintab/kis_tablet_support_x11.cpp:
    the mouse-button translations, the Wacom tool-id classification, the
    device, pointer and grab logic of translateXinputEvent, and the "choke
    mouse" flag of KisTabletSupportX11::eventFilter. */
module TabletX11 {
  import opened Wrappers

  // ---------------------------------------------------------------------
  // Mouse buttons

  /** Core X11 button state masks and button numbers (X.h). */
  const Button1Mask: bv32 := 0x100
  const Button2Mask: bv32 := 0x200
  const Button3Mask: bv32 := 0x400
  const Button1: int := 1
  const Button2: int := 2
  const Button3: int := 3

  /** Qt::MouseButton flag values. */
  const NoButton: bv32 := 0
  const LeftButton: bv32 := 0x1
  const RightButton: bv32 := 0x2
  const MidButton: bv32 := 0x4

  /** translateMouseButtons: the Qt buttons held in an X11 state word. */
  function TranslateMouseButtons(s: bv32): (r: bv32)
    ensures (r & LeftButton != 0) <==> (s & Button1Mask != 0)
    ensures (r & MidButton != 0) <==> (s & Button2Mask != 0)
    ensures (r & RightButton != 0) <==> (s & Button3Mask != 0)
    ensures r & !(LeftButton | MidButton | RightButton) == 0
  {
    (if s & Button1Mask != 0 then LeftButton else 0) |
    (if s & Button2Mask != 0 then MidButton else 0) |
    (if s & Button3Mask != 0 then RightButton else 0)
  }

  /** translateMouseButton: button 1, 2 and 3 are left, middle and right;
      any other number falls back to left. */
  function TranslateMouseButton(b: int): (r: bv32)
    ensures r == MidButton <==> b == Button2
    ensures r == RightButton <==> b == Button3
    ensures r == LeftButton <==> b != Button2 && b != Button3
  {
    if b == Button1 then LeftButton
    else if b == Button2 then MidButton
    else if b == Button3 then RightButton
    else LeftButton
  }

  // ---------------------------------------------------------------------
  // Devices

  /** QTabletEvent::TabletDevice. */
  datatype DeviceType = NoDevice | Puck | Stylus | Airbrush | FourDMouse | XFreeEraser | RotationStylus

  /** QTabletEvent::PointerType. */
  datatype PointerType = UnknownPointer | Pen | Cursor | Eraser

  /** Wacom tool ids, as listed in fetchWacomToolId. */
  const MouseToolIds: set<int> := {0x007, 0x017, 0x094, 0x09c}
  const LensToolIds: set<int> := {0x096, 0x097}
  const EraserToolIds: set<int> := {0x0fa, 0x81b, 0x82a, 0x82b, 0x85a, 0x91a, 0x91b, 0xd1a}
  const AirbrushToolIds: set<int> := {0x112, 0x912, 0x913, 0xd12}

  /** The tool-id switch of fetchWacomToolId: mice, lens cursors, erasers
      and airbrushes by their ids, and every other id, known pen or not, a
      stylus. */
  function ToolDeviceType(toolId: int): (r: DeviceType)
    ensures r == FourDMouse <==> toolId in MouseToolIds
    ensures r == Puck <==> toolId in LensToolIds
    ensures r == XFreeEraser <==> toolId in EraserToolIds
    ensures r == Airbrush <==> toolId in AirbrushToolIds
    ensures r == Stylus <==>
              toolId !in MouseToolIds && toolId !in LensToolIds && toolId !in EraserToolIds &&
              toolId !in AirbrushToolIds
  {
    if toolId in MouseToolIds then FourDMouse
    else if toolId in LensToolIds then Puck
    else if toolId in EraserToolIds then XFreeEraser
    else if toolId in AirbrushToolIds then Airbrush
    else Stylus
  }

  /** What the Wacom configuration library reports for the current tool;
      None when the library, its configuration or the device cannot be
      opened. */
  datatype WacomTool = WacomTool(serial: int, toolId: int)

  /** fetchWacomToolId: the new device type and serial id. */
  function FetchWacomToolId(deviceType: DeviceType, serialId: int, wacom: Option<WacomTool>): (r: (DeviceType, int))
    ensures wacom.None? ==> r == (deviceType, serialId)
    ensures wacom.Some? ==> r == (ToolDeviceType(wacom.value.toolId), wacom.value.serial)
  {
    match wacom
      case None => (deviceType, serialId)
      case Some(tool) => (ToolDeviceType(tool.toolId), tool.serial)
  }

  /** The device and pointer type translateXinputEvent takes from the
      listed device that sent the event: an X free eraser is a stylus with
      an eraser pointer, a stylus has a pen pointer; with no listed device
      there is no device and no known pointer. */
  function ListedTypes(listed: Option<DeviceType>): (r: (DeviceType, PointerType))
    ensures r.0 != XFreeEraser
    ensures listed == Some(XFreeEraser) ==> r == (Stylus, Eraser)
    ensures listed == Some(Stylus) ==> r == (Stylus, Pen)
    ensures listed.Some? && listed.value != XFreeEraser && listed.value != Stylus ==>
              r == (listed.value, UnknownPointer)
    ensures listed.None? ==> r == (NoDevice, UnknownPointer)
  {
    match listed
      case None => (NoDevice, UnknownPointer)
      case Some(XFreeEraser) => (Stylus, Eraser)
      case Some(Stylus) => (Stylus, Pen)
      case Some(t) => (t, UnknownPointer)
  }

  /** C's (short) cast of an int: the low 16 bits read as two's
      complement. */
  function Short(v: int): (r: int)
    ensures -0x8000 <= r < 0x8000
    ensures (r - v) % 0x1_0000 == 0
    ensures -0x8000 <= v < 0x8000 ==> r == v
  {
    (v + 0x8000) % 0x1_0000 - 0x8000
  }

  // ---------------------------------------------------------------------
  // Events

  /** Widgets are named by an id. */
  type Widget = nat

  /** The kind of XInput event, checked motion first, as the source does. */
  datatype TabletEventKind = TabletMoveEx | TabletPressEx | TabletReleaseEx

  /** The fields of an X event the translation reads.  `rotationAxis` is
      axis_data[5]. */
  datatype XEvent = XEvent(eventType: int, deviceId: int, window: int, x: int, y: int,
                           state: bv32, button: int, rotationAxis: int)

  /** The parts of the KisTabletEvent that is sent which this model
      tracks. */
  datatype TabletEvent = TabletEvent(kind: TabletEventKind, target: Widget,
                                     deviceType: DeviceType, pointerType: PointerType,
                                     tangentialPressure: real, rotation: real, uid: int,
                                     button: bv32, buttons: bv32)

  /** The widget an event goes to before the press/release rule: the
      grabbing widget if there is one, otherwise the default widget's child
      under the pointer, otherwise the default widget. */
  function PreTarget(grab: Option<Widget>, child: Option<Widget>, defaultWidget: Widget): Widget
  {
    match grab
      case Some(g) => g
      case None => match child case Some(c) => c case None => defaultWidget
  }

  /** The grab afterwards and the final target: a press records the
      target; a release while a widget is recorded goes to that widget and
      clears the record; anything else leaves both alone. */
  function Grab(kind: TabletEventKind, grab: Option<Widget>, child: Option<Widget>, defaultWidget: Widget)
    : (r: (Option<Widget>, Widget))
    ensures kind == TabletPressEx ==> r.0 == Some(r.1)
    ensures kind == TabletReleaseEx ==> r.0 == None
    ensures kind == TabletMoveEx ==> r.0 == grab
    ensures grab.Some? ==> r.1 == grab.value
  {
    var w := PreTarget(grab, child, defaultWidget);
    if kind == TabletPressEx then (Some(w), w)
    else if kind == TabletReleaseEx && grab.Some? then (None, grab.value)
    else (grab, w)
  }

  /** The event translateXinputEvent sends and the device's new grab,
      given the kind of the X event, the type of the listed device that
      sent it (None if it is not listed), the Wacom library's answer, the
      grab of the device in use and the child under the pointer. */
  function Translate(kind: TabletEventKind, ev: XEvent, listed: Option<DeviceType>, wacom: Option<WacomTool>,
                     grab: Option<Widget>, child: Option<Widget>, defaultWidget: Widget)
    : (r: (TabletEvent, Option<Widget>))
    ensures r.0.kind == kind
    ensures (r.1, r.0.target) == Grab(kind, grab, child, defaultWidget)
    ensures r.0.buttons == TranslateMouseButtons(ev.state)
    ensures kind == TabletMoveEx ==> r.0.button == NoButton
    ensures kind != TabletMoveEx ==> r.0.button == TranslateMouseButton(ev.button)
  {
    var (listedType, pointerType) := ListedTypes(listed);
    var (deviceType, uid) := FetchWacomToolId(listedType, 0, wacom);
    var rotation := (Short(ev.rotationAxis) as real) / 64.0;
    var (tangential, rot) := if deviceType == Airbrush then (rotation, 0.0) else (0.0, rotation);
    var (newGrab, target) := Grab(kind, grab, child, defaultWidget);
    var button := if kind == TabletMoveEx then NoButton else TranslateMouseButton(ev.button);
    (TabletEvent(kind, target, deviceType, pointerType, tangential, rot, uid, button,
                 TranslateMouseButtons(ev.state)), newGrab)
  }

  /** An eraser device is reported as a stylus with an eraser pointer and a
      stylus with a pen pointer, unless the Wacom library names the tool;
      the library's answer replaces the device type but not the pointer
      type. */
  lemma DeviceAndPointerReported(kind: TabletEventKind, ev: XEvent, listed: Option<DeviceType>,
                                 wacom: Option<WacomTool>, grab: Option<Widget>, child: Option<Widget>,
                                 defaultWidget: Widget)
    ensures var e := Translate(kind, ev, listed, wacom, grab, child, defaultWidget).0;
            (wacom.None? && listed == Some(XFreeEraser) ==> e.deviceType == Stylus && e.pointerType == Eraser) &&
            (wacom.None? && listed == Some(Stylus) ==> e.deviceType == Stylus && e.pointerType == Pen) &&
            (wacom.Some? ==> e.deviceType == ToolDeviceType(wacom.value.toolId) && e.uid == wacom.value.serial &&
                             e.pointerType == ListedTypes(listed).1) &&
            (wacom.None? ==> e.uid == 0 && e.deviceType != XFreeEraser)
  {
  }

  /** For an airbrush the rotation axis becomes tangential pressure and the
      rotation is zero; for any other device the rotation is the axis in
      64ths and there is no tangential pressure. */
  lemma AirbrushRotationIsTangentialPressure(kind: TabletEventKind, ev: XEvent, listed: Option<DeviceType>,
                                             wacom: Option<WacomTool>, grab: Option<Widget>,
                                             child: Option<Widget>, defaultWidget: Widget)
    ensures var e := Translate(kind, ev, listed, wacom, grab, child, defaultWidget).0;
            var axis := (Short(ev.rotationAxis) as real) / 64.0;
            (e.deviceType == Airbrush ==> e.tangentialPressure == axis && e.rotation == 0.0) &&
            (e.deviceType != Airbrush ==> e.tangentialPressure == 0.0 && e.rotation == axis)
  {
  }

  /** The grab steps of a sequence of events of one device, each with the
      child under the pointer: the final grab and the targets in order. */
  function GrabRun(grab: Option<Widget>, events: seq<(TabletEventKind, Option<Widget>)>, defaultWidget: Widget)
    : (r: (Option<Widget>, seq<Widget>))
    ensures |r.1| == |events|
    decreases |events|
  {
    if |events| == 0 then (grab, [])
    else
      var (g, w) := Grab(events[0].0, grab, events[0].1, defaultWidget);
      var (g', ws) := GrabRun(g, events[1..], defaultWidget);
      (g', [w] + ws)
  }

  /** While a widget is recorded, every motion goes to it and the grab
      survives. */
  lemma {:induction false} MotionsKeepGrab(w: Widget, motions: seq<(TabletEventKind, Option<Widget>)>,
                                           defaultWidget: Widget)
    requires forall k | 0 <= k < |motions| :: motions[k].0 == TabletMoveEx
    ensures GrabRun(Some(w), motions, defaultWidget).0 == Some(w)
    ensures forall k | 0 <= k < |motions| :: GrabRun(Some(w), motions, defaultWidget).1[k] == w
    decreases |motions|
  {
    if |motions| > 0 {
      MotionsKeepGrab(w, motions[1..], defaultWidget);
      var ws := GrabRun(Some(w), motions[1..], defaultWidget).1;
      assert GrabRun(Some(w), motions, defaultWidget).1 == [w] + ws;
    }
  }

  /** A press, any number of motions and a release: the release goes to the
      widget the press went to, wherever the pointer is by then, and the
      grab is cleared. */
  lemma PressMotionsRelease(grab: Option<Widget>, press: Option<Widget>,
                            motions: seq<(TabletEventKind, Option<Widget>)>,
                            release: Option<Widget>, defaultWidget: Widget)
    requires forall k | 0 <= k < |motions| :: motions[k].0 == TabletMoveEx
    ensures var events := [(TabletPressEx, press)] + motions + [(TabletReleaseEx, release)];
            var r := GrabRun(grab, events, defaultWidget);
            r.0 == None && r.1[|r.1| - 1] == r.1[0] && r.1[0] == PreTarget(grab, press, defaultWidget)
  {
    var w := PreTarget(grab, press, defaultWidget);
    var events := [(TabletPressEx, press)] + motions + [(TabletReleaseEx, release)];
    assert events[1..] == motions + [(TabletReleaseEx, release)];
    RunAppend(Some(w), motions, [(TabletReleaseEx, release)], defaultWidget);
    MotionsKeepGrab(w, motions, defaultWidget);
    assert [(TabletReleaseEx, release)][1..] == [];
  }

  /** Running a concatenation is running the two parts one after the
      other. */
  lemma {:induction false} RunAppend(grab: Option<Widget>, a: seq<(TabletEventKind, Option<Widget>)>,
                                     b: seq<(TabletEventKind, Option<Widget>)>, defaultWidget: Widget)
    ensures var ra := GrabRun(grab, a, defaultWidget);
            var rb := GrabRun(ra.0, b, defaultWidget);
            GrabRun(grab, a + b, defaultWidget) == (rb.0, ra.1 + rb.1)
    decreases |a|
  {
    if |a| > 0 {
      assert (a + b)[0] == a[0];
      assert (a + b)[1..] == a[1..] + b;
      var (g, w) := Grab(a[0].0, grab, a[0].1, defaultWidget);
      RunAppend(g, a[1..], b, defaultWidget);
      var ra' := GrabRun(g, a[1..], defaultWidget);
      var rb := GrabRun(ra'.0, b, defaultWidget);
      assert GrabRun(grab, a, defaultWidget) == (ra'.0, [w] + ra'.1);
      assert GrabRun(grab, a + b, defaultWidget) == (rb.0, [w] + (ra'.1 + rb.1));
      assert [w] + (ra'.1 + rb.1) == ([w] + ra'.1) + rb.1;
    } else {
      assert a + b == b;
      assert [] + GrabRun(grab, b, defaultWidget).1 == GrabRun(grab, b, defaultWidget).1;
    }
  }

  // ---------------------------------------------------------------------
  // The choke flag

  /** Core X11 event types (X.h). */
  const ButtonPress: int := 4
  const ButtonRelease: int := 5
  const MotionNotify: int := 6

  predicate IsCoreMouseEvent(eventType: int)
  {
    eventType == ButtonRelease || eventType == ButtonPress || eventType == MotionNotify
  }

  /** eventFilter's answer and the new choke flag, given the choke flag, the
      event type and what the tablet path did: None when no tablet device
      handles the type, otherwise whether the tablet event was accepted
      (false when no widget was found). */
  function FilterResult(choke: bool, eventType: int, handled: Option<bool>): (r: (bool, bool))
    ensures choke && IsCoreMouseEvent(eventType) ==> r == (true, false)
    ensures !(choke && IsCoreMouseEvent(eventType)) ==>
              (r.0 <==> handled == Some(true)) && (r.1 <==> choke || handled == Some(true))
  {
    if choke && IsCoreMouseEvent(eventType) then (true, false)
    else match handled
      case None => (false, choke)
      case Some(accepted) => (accepted, if accepted then true else choke)
  }

  /** After an accepted tablet event exactly one core mouse event is
      swallowed: the next one is eaten and clears the flag, and a mouse
      event after it that no tablet handles passes. */
  lemma ExactlyOneMouseEventSwallowed(choke: bool, tabletType: int, mouse1: int, mouse2: int)
    requires !(choke && IsCoreMouseEvent(tabletType))
    requires IsCoreMouseEvent(mouse1) && IsCoreMouseEvent(mouse2)
    ensures var s1 := FilterResult(choke, tabletType, Some(true));
            var s2 := FilterResult(s1.1, mouse1, None);
            var s3 := FilterResult(s2.1, mouse2, None);
            s1 == (true, true) && s2 == (true, false) && s3 == (false, false)
  {
  }

  // ---------------------------------------------------------------------
  // The devices and the filter, with their state

  /** QTabletDeviceData: the fields the translation reads, and the grab it
      updates. */
  class TabletDevice {
    const deviceId: int
    const deviceType: DeviceType
    const xinputMotion: int
    const xinputButtonPress: int
    const xinputButtonRelease: int
    var widgetToGetPress: Option<Widget>

    constructor(deviceId: int, deviceType: DeviceType, xinputMotion: int, xinputButtonPress: int,
                xinputButtonRelease: int)
      ensures this.deviceId == deviceId && this.deviceType == deviceType
      ensures this.xinputMotion == xinputMotion && this.xinputButtonPress == xinputButtonPress
      ensures this.xinputButtonRelease == xinputButtonRelease
      ensures widgetToGetPress.None?
    {
      this.deviceId := deviceId;
      this.deviceType := deviceType;
      this.xinputMotion := xinputMotion;
      this.xinputButtonPress := xinputButtonPress;
      this.xinputButtonRelease := xinputButtonRelease;
      widgetToGetPress := None;
    }

    predicate HandlesType(eventType: int)
    {
      eventType == xinputMotion || eventType == xinputButtonRelease || eventType == xinputButtonPress
    }

    /** The kind of an event of one of this device's types, motion first. */
    function KindOf(eventType: int): TabletEventKind
      requires HandlesType(eventType)
    {
      if eventType == xinputMotion then TabletMoveEx
      else if eventType == xinputButtonPress then TabletPressEx
      else TabletReleaseEx
    }
  }

  /** The index of the first device with the given id. */
  function FirstWithDeviceId(devices: seq<TabletDevice>, id: int): (r: Option<nat>)
    ensures r.Some? ==> r.value < |devices| && devices[r.value].deviceId == id &&
                        forall k | 0 <= k < r.value :: devices[k].deviceId != id
    ensures r.None? ==> forall k | 0 <= k < |devices| :: devices[k].deviceId != id
  {
    if |devices| == 0 then None
    else if devices[0].deviceId == id then Some(0)
    else match FirstWithDeviceId(devices[1..], id)
      case None => None
      case Some(k) => Some(k + 1)
  }

  /** The index of the first device that handles the given event type. */
  function FirstHandling(devices: seq<TabletDevice>, eventType: int): (r: Option<nat>)
    ensures r.Some? ==> r.value < |devices| && devices[r.value].HandlesType(eventType) &&
                        forall k | 0 <= k < r.value :: !devices[k].HandlesType(eventType)
    ensures r.None? ==> forall k | 0 <= k < |devices| :: !devices[k].HandlesType(eventType)
  {
    if |devices| == 0 then None
    else if devices[0].HandlesType(eventType) then Some(0)
    else match FirstHandling(devices[1..], eventType)
      case None => None
      case Some(k) => Some(k + 1)
  }

  /** KisTabletSupportX11 with its global state: the list of tablet
      devices and the choke flag. */
  class TabletSupportX11 {
    var chokeMouse: bool
    const tablets: seq<TabletDevice>

    constructor(tablets: seq<TabletDevice>)
      ensures this.tablets == tablets && !chokeMouse
    {
      this.tablets := tablets;
      chokeMouse := false;
    }

    /** The device-id search of translateXinputEvent. */
    method FindDevice(id: int) returns (r: Option<nat>)
      ensures r == FirstWithDeviceId(tablets, id)
    {
      var i := 0;
      while i < |tablets|
        invariant 0 <= i <= |tablets|
        invariant forall k | 0 <= k < i :: tablets[k].deviceId != id
      {
        if tablets[i].deviceId == id {
          FirstIndexUnique(tablets, id, i);
          return Some(i);
        }
        i := i + 1;
      }
      return None;
    }

    /** The device search of eventFilter. */
    method FindHandling(eventType: int) returns (r: Option<nat>)
      ensures r == FirstHandling(tablets, eventType)
    {
      var i := 0;
      while i < |tablets|
        invariant 0 <= i <= |tablets|
        invariant forall k | 0 <= k < i :: !tablets[k].HandlesType(eventType)
      {
        if tablets[i].HandlesType(eventType) {
          FirstHandlingUnique(tablets, eventType, i);
          return Some(i);
        }
        i := i + 1;
      }
      return None;
    }

    /** The device whose grab an event updates: the listed device with the
        event's id, or else the device the event was passed with. */
    function DeviceInUse(ev: XEvent, tablet: TabletDevice): TabletDevice
      reads this
    {
      match FirstWithDeviceId(tablets, ev.deviceId)
        case Some(k) => tablets[k]
        case None => tablet
    }

    /** The event translateXinputEvent sends and the new grab of the
        device in use. */
    function Outcome(ev: XEvent, tablet: TabletDevice, defaultWidget: Widget, wacom: Option<WacomTool>,
                     childAt: (Widget, int, int) -> Option<Widget>): (TabletEvent, Option<Widget>)
      requires tablet.HandlesType(ev.eventType)
      reads this, DeviceInUse(ev, tablet)
    {
      var found := FirstWithDeviceId(tablets, ev.deviceId);
      var listed := if found.Some? then Some(tablets[found.value].deviceType) else None;
      Translate(tablet.KindOf(ev.eventType), ev, listed, wacom, DeviceInUse(ev, tablet).widgetToGetPress,
                childAt(defaultWidget, ev.x, ev.y), defaultWidget)
    }

    /** translateXinputEvent: the event sent is Translate's, its target's
        answer is returned, and the grab of the device in use is the new
        one; nothing else changes. */
    method TranslateXinputEvent(ev: XEvent, tablet: TabletDevice, defaultWidget: Widget, wacom: Option<WacomTool>,
                                childAt: (Widget, int, int) -> Option<Widget>,
                                accepts: (Widget, TabletEvent) -> bool)
      returns (accepted: bool)
      requires tablet.HandlesType(ev.eventType)
      modifies DeviceInUse(ev, tablet)
      ensures var r := old(Outcome(ev, tablet, defaultWidget, wacom, childAt));
              accepted == accepts(r.0.target, r.0) && DeviceInUse(ev, tablet).widgetToGetPress == r.1
    {
      var kind := tablet.KindOf(ev.eventType);
      var dev, deviceType, pointerType := ResolveDevice(ev, tablet);
      var fetched := FetchWacomToolId(deviceType, 0, wacom);
      deviceType := fetched.0;
      var uid := fetched.1;
      var rotation: real := (Short(ev.rotationAxis) as real) / 64.0;
      var tangentialPressure: real := 0.0;
      if deviceType == Airbrush {
        tangentialPressure := rotation;
        rotation := 0.0;
      }
      var w := RouteEvent(dev, kind, childAt(defaultWidget, ev.x, ev.y), defaultWidget);
      var button := NoButton;
      if kind != TabletMoveEx {
        button := TranslateMouseButton(ev.button);
      }
      var e := TabletEvent(kind, w, deviceType, pointerType, tangentialPressure, rotation, uid, button,
                           TranslateMouseButtons(ev.state));
      accepted := accepts(w, e);
    }

    /** The first part of translateXinputEvent: the listed device with the
        event's id replaces the one passed in, and its type gives the
        device and pointer type. */
    method ResolveDevice(ev: XEvent, tablet: TabletDevice)
      returns (dev: TabletDevice, deviceType: DeviceType, pointerType: PointerType)
      ensures dev == DeviceInUse(ev, tablet)
      ensures var found := FirstWithDeviceId(tablets, ev.deviceId);
              (deviceType, pointerType) ==
              ListedTypes(if found.Some? then Some(tablets[found.value].deviceType) else None)
    {
      var found := FindDevice(ev.deviceId);
      dev := tablet;
      deviceType := NoDevice;
      pointerType := UnknownPointer;
      if found.Some? {
        dev := tablets[found.value];
        deviceType := dev.deviceType;
        if dev.deviceType == XFreeEraser {
          deviceType := Stylus;
          pointerType := Eraser;
        } else if dev.deviceType == Stylus {
          pointerType := Pen;
        }
      }
    }

    /** The widget choice and grab update of translateXinputEvent, for the
        child `child` under the pointer. */
    method RouteEvent(dev: TabletDevice, kind: TabletEventKind, child: Option<Widget>, defaultWidget: Widget)
      returns (w: Widget)
      modifies dev
      ensures (dev.widgetToGetPress, w) == Grab(kind, old(dev.widgetToGetPress), child, defaultWidget)
    {
      w := defaultWidget;
      if dev.widgetToGetPress.Some? {
        w := dev.widgetToGetPress.value;
      } else if child.Some? {
        w := child.value;
      }
      if kind == TabletPressEx {
        dev.widgetToGetPress := Some(w);
      } else if kind == TabletReleaseEx && dev.widgetToGetPress.Some? {
        w := dev.widgetToGetPress.value;
        dev.widgetToGetPress := None;
      }
    }

    /** eventFilter: a choked core mouse event is eaten; otherwise the
        first device that handles the event type translates it, sent to
        the active popup, else the active modal widget, else the widget of
        the event's window, and an accepted event chokes the next core
        mouse event.  Returns whether the event was consumed. */
    method EventFilter(ev: XEvent, popup: Option<Widget>, modal: Option<Widget>, windowWidget: Option<Widget>,
                       wacom: Option<WacomTool>, childAt: (Widget, int, int) -> Option<Widget>,
                       accepts: (Widget, TabletEvent) -> bool)
      returns (consumed: bool)
      modifies this, tablets
      ensures old(chokeMouse) && IsCoreMouseEvent(ev.eventType) ==>
                consumed && !chokeMouse && forall t | t in tablets :: t.widgetToGetPress == old(t.widgetToGetPress)
      ensures !(old(chokeMouse) && IsCoreMouseEvent(ev.eventType)) && FirstHandling(tablets, ev.eventType).None? ==>
                !consumed && chokeMouse == old(chokeMouse) &&
                forall t | t in tablets :: t.widgetToGetPress == old(t.widgetToGetPress)
      ensures !(old(chokeMouse) && IsCoreMouseEvent(ev.eventType)) && FirstHandling(tablets, ev.eventType).Some? &&
              popup.None? && modal.None? && windowWidget.None? ==>
                !consumed && chokeMouse == old(chokeMouse) &&
                forall t | t in tablets :: t.widgetToGetPress == old(t.widgetToGetPress)
      ensures !(old(chokeMouse) && IsCoreMouseEvent(ev.eventType)) && FirstHandling(tablets, ev.eventType).Some? &&
              (popup.Some? || modal.Some? || windowWidget.Some?) ==>
                var tab := tablets[FirstHandling(tablets, ev.eventType).value];
                var w := if popup.Some? then popup.value else if modal.Some? then modal.value else windowWidget.value;
                var dev := DeviceInUse(ev, tab);
                var r := old(Outcome(ev, tab, w, wacom, childAt));
                consumed == accepts(r.0.target, r.0) && chokeMouse == (consumed || old(chokeMouse)) &&
                dev.widgetToGetPress == r.1 &&
                forall t | t in tablets && t != dev :: t.widgetToGetPress == old(t.widgetToGetPress)
      ensures exists handled: Option<bool> :: (consumed, chokeMouse) == FilterResult(old(chokeMouse), ev.eventType, handled)
    {
      if chokeMouse && IsCoreMouseEvent(ev.eventType) {
        chokeMouse := false;
        consumed := true;
        assert (consumed, chokeMouse) == FilterResult(old(chokeMouse), ev.eventType, None);
        return;
      }
      var found := FindHandling(ev.eventType);
      if found.None? {
        consumed := false;
        assert (consumed, chokeMouse) == FilterResult(old(chokeMouse), ev.eventType, None);
        return;
      }
      var tab := tablets[found.value];
      var widget := popup;
      if widget.None? {
        widget := modal;
      }
      if widget.None? {
        widget := windowWidget;
      }
      var retval := false;
      if widget.Some? {
        retval := TranslateXinputEvent(ev, tab, widget.value, wacom, childAt, accepts);
      }
      if retval {
        chokeMouse := true;
      }
      consumed := retval;
      assert (consumed, chokeMouse) == FilterResult(old(chokeMouse), ev.eventType, Some(retval));
    }
  }

  lemma FirstIndexUnique(devices: seq<TabletDevice>, id: int, i: nat)
    requires i < |devices| && devices[i].deviceId == id
    requires forall k | 0 <= k < i :: devices[k].deviceId != id
    ensures FirstWithDeviceId(devices, id) == Some(i)
  {
  }

  lemma FirstHandlingUnique(devices: seq<TabletDevice>, eventType: int, i: nat)
    requires i < |devices| && devices[i].HandlesType(eventType)
    requires forall k | 0 <= k < i :: !devices[k].HandlesType(eventType)
    ensures FirstHandling(devices, eventType) == Some(i)
  {
  }
}

/** The view's device-to-port table (GamepadsManager.kt): every connected
    device the filter accepts and that has a controller number n > 0 is
    assigned port n - 1; unknown devices play on port 0. */
module DevicePorts {
  import opened AndroidKeys

  /** The parts of an android.view.InputDevice the manager reads. */
  datatype InputDevice = InputDevice(id: int, controllerNumber: int, sources: bv32)

  /** isGamePad as written: the list of the two source tests is non-empty,
      so `any()` without a predicate accepts every device. */
  predicate IsGamePad(device: InputDevice)
  {
    var conditions := [
      device.sources & SOURCE_GAMEPAD == SOURCE_GAMEPAD,
      device.sources & SOURCE_JOYSTICK == SOURCE_JOYSTICK
    ];
    |conditions| > 0
  }

  lemma {:induction false} IsGamePadAcceptsEverything(device: InputDevice)
    ensures IsGamePad(device)
  {
  }

  /** The evidently intended test: the device reports the gamepad or the
      joystick source bits. */
  predicate IsGamePadIntended(device: InputDevice)
  {
    device.sources & SOURCE_GAMEPAD == SOURCE_GAMEPAD ||
    device.sources & SOURCE_JOYSTICK == SOURCE_JOYSTICK
  }

  /** A touchscreen (source bits 0x1002) passes the written test but not the
      intended one. */
  lemma TouchscreenCounterexample()
    ensures IsGamePad(InputDevice(7, 1, 0x1002))
    ensures !IsGamePadIntended(InputDevice(7, 1, 0x1002))
  {
  }

  /** Whether the rebuild gives the device a port under a given filter. */
  predicate Mapped(device: InputDevice, isGamePad: InputDevice -> bool)
  {
    isGamePad(device) && device.controllerNumber > 0
  }

  /** The map a rebuild produces from the listed devices, in order; a later
      device with the same id overwrites an earlier one. */
  function PortMap(devices: seq<InputDevice>, isGamePad: InputDevice -> bool): (m: map<int, int>)
    ensures forall id :: id in m ==> m[id] >= 0
  {
    if devices == [] then map[]
    else
      var m := PortMap(devices[..|devices| - 1], isGamePad);
      var last := devices[|devices| - 1];
      if Mapped(last, isGamePad) then m[last.id := last.controllerNumber - 1] else m
  }

  /** A device id is in the map exactly when some listed device with that id
      is accepted, and then its port is that device's controller number - 1. */
  lemma {:induction false} PortMapEntries(devices: seq<InputDevice>, isGamePad: InputDevice -> bool, id: int)
    ensures id in PortMap(devices, isGamePad) <==>
      exists i :: 0 <= i < |devices| && devices[i].id == id && Mapped(devices[i], isGamePad)
    ensures id in PortMap(devices, isGamePad) ==>
      exists i :: 0 <= i < |devices| && devices[i].id == id && Mapped(devices[i], isGamePad) &&
        PortMap(devices, isGamePad)[id] == devices[i].controllerNumber - 1
  {
    if devices != [] {
      var prefix := devices[..|devices| - 1];
      var last := devices[|devices| - 1];
      PortMapEntries(prefix, isGamePad, id);
      if id in PortMap(prefix, isGamePad) {
        var i :| 0 <= i < |prefix| && prefix[i].id == id && Mapped(prefix[i], isGamePad) &&
          PortMap(prefix, isGamePad)[id] == prefix[i].controllerNumber - 1;
        assert devices[i] == prefix[i];
      }
      if exists i :: 0 <= i < |devices| && devices[i].id == id && Mapped(devices[i], isGamePad) {
        var i :| 0 <= i < |devices| && devices[i].id == id && Mapped(devices[i], isGamePad);
        if i < |prefix| {
          assert prefix[i] == devices[i];
        }
      }
    }
  }

  /** With the filter as written, exactly the devices with a controller
      number > 0 get a port. */
  lemma {:induction false} WrittenFilterMapsByControllerNumber(devices: seq<InputDevice>, id: int)
    ensures id in PortMap(devices, IsGamePad) <==>
      exists i :: 0 <= i < |devices| && devices[i].id == id && devices[i].controllerNumber > 0
  {
    PortMapEntries(devices, IsGamePad, id);
  }

  /** With the intended filter, a touchscreen that has a controller number
      gets no port, while the written filter gives it port 0. */
  lemma {:induction false} IntendedFilterSkipsTouchscreen()
    ensures 7 !in PortMap([InputDevice(7, 1, 0x1002)], IsGamePadIntended)
    ensures PortMap([InputDevice(7, 1, 0x1002)], IsGamePad) == map[7 := 0]
  {
    TouchscreenCounterexample();
    var devices := [InputDevice(7, 1, 0x1002)];
    assert devices[..0] == [];
  }

  /** The letter-key remap of this manager: KEYCODE_A and KEYCODE_B trade
      places, as do KEYCODE_X and KEYCODE_Y; every other code passes through. */
  function GetGamepadKeyEvent(keyCode: int): (r: int)
    ensures r != keyCode <==> keyCode in {KEYCODE_A, KEYCODE_B, KEYCODE_X, KEYCODE_Y}
    ensures keyCode == KEYCODE_A <==> r == KEYCODE_B
    ensures keyCode == KEYCODE_X <==> r == KEYCODE_Y
  {
    if keyCode == KEYCODE_B then KEYCODE_A
    else if keyCode == KEYCODE_A then KEYCODE_B
    else if keyCode == KEYCODE_X then KEYCODE_Y
    else if keyCode == KEYCODE_Y then KEYCODE_X
    else keyCode
  }

  lemma {:induction false} LetterRemapInvolution(keyCode: int)
    ensures GetGamepadKeyEvent(GetGamepadKeyEvent(keyCode)) == keyCode
  {
  }

  class GamepadsManager {
    var devicePortMap: map<int, int>
    /** The last device count published to observers. */
    var count: nat

    /** Every stored port is >= 0. */
    ghost predicate Valid()
      reads this
    {
      forall id :: id in devicePortMap ==> devicePortMap[id] >= 0
    }

    constructor ()
      ensures devicePortMap == map[] && count == 0
      ensures Valid()
    {
      devicePortMap := map[];
      count := 0;
    }

    /** getGamepadPort: the mapped port, or 0 for an unmapped device. */
    function GetGamepadPort(deviceId: int): (port: int)
      reads this
      requires Valid()
      ensures port >= 0
      ensures deviceId in devicePortMap ==> port == devicePortMap[deviceId]
      ensures deviceId !in devicePortMap ==> port == 0
    {
      if deviceId in devicePortMap then devicePortMap[deviceId] else 0
    }

    /** updateDevicePortMap over the devices currently connected: the map is
        cleared and rebuilt, so the result does not depend on the old map,
        and the published count is the new map's size. */
    method UpdateDevicePortMap(devices: seq<InputDevice>)
      modifies this
      ensures devicePortMap == PortMap(devices, IsGamePad)
      ensures count == |devicePortMap|
      ensures Valid()
    {
      devicePortMap := map[];
      var i := 0;
      while i < |devices|
        invariant i <= |devices|
        invariant devicePortMap == PortMap(devices[..i], IsGamePad)
      {
        var device := devices[i];
        assert devices[..i + 1][..i] == devices[..i];
        if IsGamePad(device) && device.controllerNumber > 0 {
          devicePortMap := devicePortMap[device.id := device.controllerNumber - 1];
        }
        i := i + 1;
      }
      assert devices[..i] == devices;
      count := |devicePortMap|;
    }
  }

  /** After a rebuild, a listed device with a controller number n > 0 whose id
      no other listed device shares plays on port n - 1. */
  lemma {:induction false} PortOfListedDevice(devices: seq<InputDevice>, k: nat)
    requires k < |devices| && devices[k].controllerNumber > 0
    requires forall j :: 0 <= j < |devices| && j != k ==> devices[j].id != devices[k].id
    ensures devices[k].id in PortMap(devices, IsGamePad)
    ensures PortMap(devices, IsGamePad)[devices[k].id] == devices[k].controllerNumber - 1
  {
    PortMapEntries(devices, IsGamePad, devices[k].id);
  }
}

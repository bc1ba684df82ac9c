/** The configuration upgrade that runs at every start, as a transformation of the JSON tree. */
module ConfigMigration {
  import opened Options
  import opened JsonTrees

  /** Build-time switches. */
  datatype Build = Build(rotate: bool, evdevCalibrate: bool, android: bool)

  // ---- the values that are filled in ----

  function Device(id: string, name: string): Json {
    Obj(map["id" := Str(id), "display_name" := Str(name)])
  }

  function Sensor(id: string, name: string, controllable: bool, color: string): Json {
    Obj(map["id" := Str(id), "display_name" := Str(name), "controllable" := Bool(controllable), "color" := Str(color)])
  }

  function FansConf(): (j: Json)
    ensures j.Arr? && j.items != []
  {
    Arr([Device("output_pin fan0", "Toolhead Fan"), Device("output_pin fan1", "Back Fan"),
         Device("output_pin fan2", "Side Fan")])
  }

  function SensorsConf(): (j: Json)
    ensures j.Arr? && j.items != []
  {
    Arr([Sensor("extruder", "Extruder", true, "red"), Sensor("heater_bed", "Bed", true, "purple"),
         Sensor("temperature_sensor mcu_temp", "MCU Temp", false, "blue")])
  }

  const COOLDOWN := Str("SET_HEATER_TEMPERATURE HEATER=extruder TARGET=0\n"
                        + "SET_HEATER_TEMPERATURE HEATER=heater_bed TARGET=0")
  const LOAD := Str("_GUPPY_LOAD_MATERIAL")
  const UNLOAD := Str("_GUPPY_QUIT_MATERIAL")
  const DEAD_LOAD := Str("LOAD_MATERIAL")
  const DEAD_UNLOAD := Str("UNLOAD_MATERIAL")

  function MacrosConf(): map<string, Json> {
    map["load_filament" := LOAD, "unload_filament" := UNLOAD]
  }

  /** The tree a first start begins with. */
  function FirstConfig(thumbdir: string, build: Build): Json {
    var m := map["log_path" := Str("/usr/data/printer_data/logs/guppyscreen.log"), "thumbnail_path" := Str(thumbdir),
                 "wpa_supplicant" := Str("/var/run/wpa_supplicant"), "display_sleep_sec" := Number(600.0),
                 "default_extruder_temp" := Number(240.0)];
    if build.android then Obj(m)
    else
      Obj(m["default_printer" := Str("k1")]["printers" := Obj(map["k1" := Obj(map[
        "moonraker_api_key" := Bool(false), "moonraker_host" := Str("127.0.0.1"), "moonraker_port" := Number(7125.0),
        "monitored_sensors" := SensorsConf(), "fans" := FansConf(), "default_macros" := Obj(MacrosConf())])])])
  }

  /** Everything a first start begins with; an Android build begins without printers. */
  lemma FirstStart(thumbdir: string, build: Build)
    ensures FirstConfig(thumbdir, build).Obj?
    ensures var m := FirstConfig(thumbdir, build).members;
            && Child(m, "log_path") == Str("/usr/data/printer_data/logs/guppyscreen.log")
            && Child(m, "thumbnail_path") == Str(thumbdir)
            && Child(m, "wpa_supplicant") == Str("/var/run/wpa_supplicant")
            && Child(m, "display_sleep_sec") == Number(600.0) && Child(m, "default_extruder_temp") == Number(240.0)
            && Child(m, "default_printer") == (if build.android then Null else Str("k1"))
            && (build.android ==> "default_printer" !in m && "printers" !in m)
            && (!build.android ==> Inner(m, "printers", "k1").Ok? && FirstPrinter(Inner(m, "printers", "k1").value))
  {
    hide SensorsConf, FansConf, FirstPrinter, Inner;
    if !build.android {
      var m := FirstConfig(thumbdir, build).members;
      var k1 := map["moonraker_api_key" := Bool(false), "moonraker_host" := Str("127.0.0.1"),
                    "moonraker_port" := Number(7125.0), "monitored_sensors" := SensorsConf(), "fans" := FansConf(),
                    "default_macros" := Obj(MacrosConf())];
      assert m["printers"] == Obj(map["k1" := Obj(k1)]);
      OnlyPrinter(m, "k1", k1);
      FirstPrinterMembers(k1);
    }
  }

  lemma OnlyPrinter(m: map<string, Json>, name: string, p: map<string, Json>)
    requires "printers" in m && m["printers"] == Obj(map[name := Obj(p)])
    ensures Inner(m, "printers", name) == Ok(p)
  {
  }

  lemma FirstPrinterMembers(p: map<string, Json>)
    requires p == map["moonraker_api_key" := Bool(false), "moonraker_host" := Str("127.0.0.1"),
                      "moonraker_port" := Number(7125.0), "monitored_sensors" := SensorsConf(), "fans" := FansConf(),
                      "default_macros" := Obj(MacrosConf())]
    ensures FirstPrinter(p)
  {
    hide SensorsConf, FansConf;
  }

  /** The printer of the first start. */
  predicate FirstPrinter(p: map<string, Json>) {
    && Child(p, "moonraker_api_key") == Bool(false) && Child(p, "moonraker_host") == Str("127.0.0.1")
    && Child(p, "moonraker_port") == Number(7125.0)
    && Child(p, "monitored_sensors") == SensorsConf() && Child(p, "fans") == FansConf()
    && Child(p, "default_macros")
       == Obj(map["load_filament" := Str("_GUPPY_LOAD_MATERIAL"), "unload_filament" := Str("_GUPPY_QUIT_MATERIAL")])
  }

  /** The sensors and fans that are filled in, entry by entry. */
  lemma FilledDevices()
    ensures var l := SensorsConf().items;
            && |l| == 3 && IsSensor(l[0], "extruder", "Extruder", true, "red")
            && IsSensor(l[1], "heater_bed", "Bed", true, "purple")
            && IsSensor(l[2], "temperature_sensor mcu_temp", "MCU Temp", false, "blue")
    ensures var l := FansConf().items;
            && |l| == 3 && IsDevice(l[0], "output_pin fan0", "Toolhead Fan")
            && IsDevice(l[1], "output_pin fan1", "Back Fan") && IsDevice(l[2], "output_pin fan2", "Side Fan")
  {
  }

  predicate IsDevice(j: Json, id: string, name: string) {
    j.Obj? && Child(j.members, "id") == Str(id) && Child(j.members, "display_name") == Str(name)
  }

  predicate IsSensor(j: Json, id: string, name: string, controllable: bool, color: string) {
    && IsDevice(j, id, name)
    && Child(j.members, "controllable") == Bool(controllable) && Child(j.members, "color") == Str(color)
  }

  // ---- the steps ----

  /** A missing or null member gets a value; any other is kept. */
  function DefaultAt(m: map<string, Json>, key: string, v: Json): (r: map<string, Json>)
    ensures forall k :: k != key ==> Child(r, k) == Child(m, k) && (k in r <==> k in m)
    ensures Child(r, key) == if Child(m, key).Null? then v else Child(m, key)
  {
    if Child(m, key).Null? then m[key := v] else m
  }

  /** Referring to a member makes it exist. */
  function TouchAt(m: map<string, Json>, key: string): (r: map<string, Json>)
    ensures forall k :: Child(r, k) == Child(m, k) && (k in r <==> k in m || k == key)
  {
    m[key := Child(m, key)]
  }

  predicate LacksSensors(v: Json) {
    v.Null? || v == Arr([])
  }

  function ReplaceAt(m: map<string, Json>, key: string, dead: Json, live: Json): (r: map<string, Json>)
    ensures r.Keys == m.Keys
    ensures forall k :: k in m ==> r[k] == if k == key && m[k] == dead then live else m[k]
  {
    if key in m && m[key] == dead then m[key := live] else m
  }

  /** default_macros: filled in, completed with cooldown, and rid of two dead macro names. */
  function MigrateMacros(v: Json): Json {
    if v.Null? then Obj(MacrosConf()["cooldown" := COOLDOWN])
    else
      var members := if v.Obj? then v.members else map[];
      var cooled := if "cooldown" in members then members else members["cooldown" := COOLDOWN];
      Obj(ReplaceAt(ReplaceAt(cooled, "load_filament", DEAD_LOAD, LOAD), "unload_filament", DEAD_UNLOAD, UNLOAD))
  }

  function MigratePrinter(p: map<string, Json>): map<string, Json> {
    var p1 := if LacksSensors(Child(p, "monitored_sensors")) then p["monitored_sensors" := SensorsConf()] else p;
    var p2 := DefaultAt(p1, "fans", FansConf());
    var p3 := p2["default_macros" := MigrateMacros(Child(p2, "default_macros"))];
    DefaultAt(p3, "log_level", Str("info"))
  }

  /** The part that depends on the default printer. */
  function MigratePrinters(m: map<string, Json>): Outcome<map<string, Json>> {
    match Child(m, "default_printer")
    case Null => Ok(m)
    case Str(name) =>
      (match Inner(m, "printers", name)
       case Thrown => Thrown
       case Ok(p) =>
         Ok(DefaultAt(WithInner(m, "printers", name, MigratePrinter(p)), "guppy_init_script",
                      Str("/etc/init.d/S99guppyscreen"))))
    case _ => Thrown
  }

  predicate NeverCalibrated(m: map<string, Json>) {
    || Child(m, "touch_calibrated").Null?
    || (Child(m, "touch_calibrated") == Bool(false) && Child(m, "touch_calibration_coeff").Null?)
  }

  function MigrateTouch(m: map<string, Json>, build: Build): map<string, Json> {
    var t := TouchAt(TouchAt(m, "touch_calibrated"), "touch_calibration_coeff");
    if NeverCalibrated(t) then t["touch_calibrated" := Bool(build.evdevCalibrate)] else t
  }

  function MigrateDefaults(m: map<string, Json>): map<string, Json> {
    DefaultAt(DefaultAt(DefaultAt(m, "prompt_emergency_stop", Bool(true)), "display_sleep_sec", Number(600.0)),
              "default_extruder_temp", Number(240.0))
  }

  /** A setting forced once, with a marker that it was. */
  function ForceOnce(m: map<string, Json>, marker: string, setting: string): map<string, Json> {
    if Child(m, marker).Null? then m[setting := Bool(true)][marker := Bool(true)] else m
  }

  function MigrateInverts(m: map<string, Json>): map<string, Json> {
    ForceOnce(ForceOnce(m, "invert_y_ke_default_applied", "invert_y_direction"),
              "invert_z_ke_default_applied", "invert_z_direction")
  }

  function MigrateGlobals(m: map<string, Json>, build: Build): map<string, Json> {
    var rotated := DefaultAt(m, "display_rotate", Number(if build.rotate then 3.0 else 0.0));
    MigrateInverts(MigrateDefaults(MigrateTouch(rotated, build)))
  }

  /** The first two edits: the path is set, and the default printer referred to. */
  function Started(m: map<string, Json>, configPath: string): map<string, Json> {
    TouchAt(m["config_path" := Str(configPath)], "default_printer")
  }

  /** Config::init on the tree read from the file. */
  function Migrate(d: Json, configPath: string, build: Build): Outcome<Json> {
    match MembersOf(d)
    case Thrown => Thrown
    case Ok(m) =>
      match MigratePrinters(Started(m, configPath))
      case Thrown => Thrown
      case Ok(n) => Ok(Obj(MigrateGlobals(n, build)))
  }

  // ---- settled trees ----

  predicate MacrosSettled(v: Json) {
    && v.Obj? && "cooldown" in v.members
    && ("load_filament" in v.members ==> v.members["load_filament"] != DEAD_LOAD)
    && ("unload_filament" in v.members ==> v.members["unload_filament"] != DEAD_UNLOAD)
  }

  predicate PrinterSettled(p: map<string, Json>) {
    && !LacksSensors(Child(p, "monitored_sensors")) && !Child(p, "fans").Null?
    && "default_macros" in p && MacrosSettled(p["default_macros"]) && !Child(p, "log_level").Null?
  }

  /** The default printer's object is in place and complete. */
  predicate PrintersSettled(m: map<string, Json>) {
    && "default_printer" in m
    && match m["default_printer"]
       case Null => true
       case Str(name) =>
         && !Child(m, "guppy_init_script").Null?
         && "printers" in m && m["printers"].Obj? && name in m["printers"].members
         && m["printers"].members[name].Obj? && PrinterSettled(m["printers"].members[name].members)
       case _ => false
  }

  predicate GlobalsSettled(m: map<string, Json>, build: Build) {
    && !Child(m, "display_rotate").Null?
    && "touch_calibrated" in m && "touch_calibration_coeff" in m
    && (NeverCalibrated(m) ==> m["touch_calibrated"] == Bool(build.evdevCalibrate))
    && !Child(m, "prompt_emergency_stop").Null? && !Child(m, "display_sleep_sec").Null?
    && !Child(m, "default_extruder_temp").Null?
    && !Child(m, "invert_y_ke_default_applied").Null? && !Child(m, "invert_z_ke_default_applied").Null?
  }

  /** Nothing is left to fill in, repair or upgrade. */
  predicate Settled(d: Json, configPath: string, build: Build) {
    && d.Obj? && Child(d.members, "config_path") == Str(configPath)
    && PrintersSettled(d.members) && GlobalsSettled(d.members, build)
  }

  // ---- idempotence ----

  lemma UpdateWithSame(m: map<string, Json>, key: string)
    requires key in m
    ensures m[key := m[key]] == m
  {
  }

  lemma MacrosBecomeSettled(v: Json)
    ensures MacrosSettled(MigrateMacros(v))
  {
  }

  lemma PrinterBecomesSettled(p: map<string, Json>)
    ensures PrinterSettled(MigratePrinter(p))
  {
    hide MacrosSettled, MigrateMacros, SensorsConf, FansConf;
    var p1 := if LacksSensors(Child(p, "monitored_sensors")) then p["monitored_sensors" := SensorsConf()] else p;
    var p2 := DefaultAt(p1, "fans", FansConf());
    var p3 := p2["default_macros" := MigrateMacros(Child(p2, "default_macros"))];
    MacrosBecomeSettled(Child(p2, "default_macros"));
    assert Child(p3, "monitored_sensors") == Child(p1, "monitored_sensors");
    assert Child(p3, "fans") == Child(p2, "fans");
    var p4 := MigratePrinter(p);
    assert p4 == DefaultAt(p3, "log_level", Str("info"));
    assert Child(p4, "monitored_sensors") == Child(p1, "monitored_sensors") && Child(p4, "fans") == Child(p2, "fans");
    assert "default_macros" in p4 && Child(p4, "default_macros") == Child(p3, "default_macros");
  }

  lemma SettledPrinterStays(p: map<string, Json>)
    requires PrinterSettled(p)
    ensures MigratePrinter(p) == p
  {
  }

  lemma PrintersBecomeSettled(m: map<string, Json>)
    requires "default_printer" in m && MigratePrinters(m).Ok?
    ensures PrintersSettled(MigratePrinters(m).value)
    ensures forall k :: k != "printers" && k != "guppy_init_script"
                        ==> Child(MigratePrinters(m).value, k) == Child(m, k)
  {
    hide MigratePrinter, PrinterSettled;
    if m["default_printer"].Str? {
      var name := m["default_printer"].s;
      var p := Inner(m, "printers", name).value;
      PrinterBecomesSettled(p);
    }
  }

  lemma SettledPrintersStay(m: map<string, Json>)
    requires PrintersSettled(m)
    ensures MigratePrinters(m) == Ok(m)
  {
    hide MigratePrinter, PrinterSettled;
    if m["default_printer"].Str? {
      var name := m["default_printer"].s;
      var ps := m["printers"].members;
      SettledPrinterStays(ps[name].members);
      assert Inner(m, "printers", name) == Ok(ps[name].members);
      UpdateWithSame(ps, name);
      UpdateWithSame(m, "printers");
    }
  }

  lemma SettledGlobalsStay(m: map<string, Json>, build: Build)
    requires GlobalsSettled(m, build)
    ensures MigrateGlobals(m, build) == m
  {
  }

  // ---- the global steps, member by member ----

  function OrElse(j: Json, v: Json): Json {
    if j.Null? then v else j
  }

  /** The value of a setting that is forced on the first run only. */
  function Forced(m: map<string, Json>, marker: string, setting: string): Json {
    if Child(m, marker).Null? then Bool(true) else Child(m, setting)
  }

  /** What one member of the root is after the global steps. */
  function GlobalValue(m: map<string, Json>, build: Build, k: string): Json {
    var was := Child(m, k);
    if k == "touch_calibrated" then (if NeverCalibrated(m) then Bool(build.evdevCalibrate) else was)
    else if k == "invert_y_direction" then Forced(m, "invert_y_ke_default_applied", k)
    else if k == "invert_z_direction" then Forced(m, "invert_z_ke_default_applied", k)
    else OrElse(was, GlobalDefault(k, build))
  }

  function GlobalDefault(k: string, build: Build): Json {
    if k == "display_rotate" then Number(if build.rotate then 3.0 else 0.0)
    else if k == "prompt_emergency_stop" then Bool(true)
    else if k == "display_sleep_sec" then Number(600.0)
    else if k == "default_extruder_temp" then Number(240.0)
    else if k == "invert_y_ke_default_applied" || k == "invert_z_ke_default_applied" then Bool(true)
    else Null
  }

  lemma TouchMember(m: map<string, Json>, build: Build, k: string)
    ensures Child(MigrateTouch(m, build), k)
            == if k == "touch_calibrated" && NeverCalibrated(m) then Bool(build.evdevCalibrate) else Child(m, k)
  {
    hide TouchAt;
  }

  lemma DefaultsMember(m: map<string, Json>, k: string)
    ensures Child(MigrateDefaults(m), k)
            == OrElse(Child(m, k), if k == "prompt_emergency_stop" then Bool(true)
                                   else if k == "display_sleep_sec" then Number(600.0)
                                   else if k == "default_extruder_temp" then Number(240.0) else Null)
  {
    hide DefaultAt;
  }

  lemma ForceOnceMember(m: map<string, Json>, marker: string, setting: string, k: string)
    requires marker != setting
    ensures Child(ForceOnce(m, marker, setting), k)
            == if k == setting then Forced(m, marker, setting)
               else if k == marker then OrElse(Child(m, k), Bool(true)) else Child(m, k)
  {
  }

  lemma InvertsMember(m: map<string, Json>, k: string)
    ensures Child(MigrateInverts(m), k)
            == if k == "invert_y_direction" then Forced(m, "invert_y_ke_default_applied", k)
               else if k == "invert_z_direction" then Forced(m, "invert_z_ke_default_applied", k)
               else if k == "invert_y_ke_default_applied" || k == "invert_z_ke_default_applied"
               then OrElse(Child(m, k), Bool(true)) else Child(m, k)
  {
    hide ForceOnce;
    var y := ForceOnce(m, "invert_y_ke_default_applied", "invert_y_direction");
    ForceOnceMember(m, "invert_y_ke_default_applied", "invert_y_direction", k);
    ForceOnceMember(m, "invert_y_ke_default_applied", "invert_y_direction", "invert_z_ke_default_applied");
    ForceOnceMember(y, "invert_z_ke_default_applied", "invert_z_direction", k);
  }

  /** The four steps together do to each member what the table says. */
  lemma GlobalMember(m: map<string, Json>, build: Build, k: string)
    ensures Child(MigrateGlobals(m, build), k) == GlobalValue(m, build, k)
  {
    hide MigrateTouch, MigrateDefaults, MigrateInverts, DefaultAt;
    var rotated := DefaultAt(m, "display_rotate", Number(if build.rotate then 3.0 else 0.0));
    var touched := MigrateTouch(rotated, build);
    var filled := MigrateDefaults(touched);
    MarkerPasses(rotated, touched, filled, build, "invert_y_ke_default_applied");
    MarkerPasses(rotated, touched, filled, build, "invert_z_ke_default_applied");
    TouchMember(rotated, build, k);
    DefaultsMember(touched, k);
    InvertsMember(filled, k);
  }

  lemma MarkerPasses(rotated: map<string, Json>, touched: map<string, Json>, filled: map<string, Json>, build: Build,
                     marker: string)
    requires touched == MigrateTouch(rotated, build) && filled == MigrateDefaults(touched)
    requires marker == "invert_y_ke_default_applied" || marker == "invert_z_ke_default_applied"
    ensures Child(filled, marker) == Child(rotated, marker)
  {
    hide MigrateTouch, MigrateDefaults;
    TouchMember(rotated, build, marker);
    DefaultsMember(touched, marker);
  }

  /** No member disappears, and the two touch members come into being. */
  lemma GlobalsHoldKeys(m: map<string, Json>, build: Build)
    ensures var r := MigrateGlobals(m, build);
            m.Keys <= r.Keys && "touch_calibrated" in r && "touch_calibration_coeff" in r
  {
    hide Child;
  }

  lemma GlobalsBecomeSettled(m: map<string, Json>, build: Build)
    ensures GlobalsSettled(MigrateGlobals(m, build), build)
  {
    hide MigrateGlobals;
    GlobalsHoldKeys(m, build);
    GlobalMember(m, build, "display_rotate");
    GlobalMember(m, build, "prompt_emergency_stop");
    GlobalMember(m, build, "display_sleep_sec");
    GlobalMember(m, build, "default_extruder_temp");
    GlobalMember(m, build, "invert_y_ke_default_applied");
    GlobalMember(m, build, "invert_z_ke_default_applied");
    GlobalMember(m, build, "touch_calibrated");
    GlobalMember(m, build, "touch_calibration_coeff");
  }

  /** The globals steps leave what belongs to the printers as it is. */
  lemma GlobalsKeepPrinters(m: map<string, Json>, build: Build)
    requires PrintersSettled(m)
    ensures PrintersSettled(MigrateGlobals(m, build))
    ensures Child(MigrateGlobals(m, build), "config_path") == Child(m, "config_path")
  {
    hide MigrateGlobals, PrinterSettled;
    GlobalsHoldKeys(m, build);
    GlobalMember(m, build, "config_path");
    GlobalMember(m, build, "default_printer");
    GlobalMember(m, build, "printers");
    GlobalMember(m, build, "guppy_init_script");
  }

  /** Whatever it started from, an upgraded tree is settled. */
  lemma MigrateSettles(d: Json, configPath: string, build: Build)
    requires Migrate(d, configPath, build).Ok?
    ensures Settled(Migrate(d, configPath, build).value, configPath, build)
  {
    hide MigratePrinters, MigrateGlobals, PrintersSettled, GlobalsSettled;
    var m := MembersOf(d).value;
    var start := Started(m, configPath);
    PrintersBecomeSettled(start);
    var n := MigratePrinters(start).value;
    GlobalsKeepPrinters(n, build);
    GlobalsBecomeSettled(n, build);
  }

  lemma SettledStays(d: Json, configPath: string, build: Build)
    requires Settled(d, configPath, build)
    ensures Migrate(d, configPath, build) == Ok(d)
  {
    hide MigratePrinters, MigrateGlobals, GlobalsSettled;
    var m := d.members;
    UpdateWithSame(m, "config_path");
    UpdateWithSame(m, "default_printer");
    SettledPrintersStay(m);
    SettledGlobalsStay(m, build);
  }

  /** init changes nothing exactly on settled trees. */
  lemma UnchangedIffSettled(d: Json, configPath: string, build: Build)
    ensures Migrate(d, configPath, build) == Ok(d) <==> Settled(d, configPath, build)
  {
    hide Migrate, Settled;
    if Settled(d, configPath, build) {
      SettledStays(d, configPath, build);
    } else if Migrate(d, configPath, build).Ok? {
      MigrateSettles(d, configPath, build);
    }
  }

  /** Running init again on its own result changes nothing. */
  lemma MigrateIsIdempotent(d: Json, configPath: string, build: Build)
    requires Migrate(d, configPath, build).Ok?
    ensures Migrate(Migrate(d, configPath, build).value, configPath, build) == Migrate(d, configPath, build)
  {
    hide Migrate, Settled;
    MigrateSettles(d, configPath, build);
    SettledStays(Migrate(d, configPath, build).value, configPath, build);
  }

  // ---- conservation of user values ----

  /** A value the user can have set: not null, and not an object that holds others. */
  predicate Leaf(v: Json) {
    !v.Null? && (v.Obj? ==> v.members == map[])
  }

  predicate MacroOverwritten(q: seq<string>, v: Json) {
    (q == ["load_filament"] && v == DEAD_LOAD) || (q == ["unload_filament"] && v == DEAD_UNLOAD)
  }

  predicate PrinterOverwritten(q: seq<string>, v: Json) {
    || (q == ["monitored_sensors"] && v == Arr([]))
    || q == ["default_macros"]
    || (|q| > 1 && q[0] == "default_macros" && MacroOverwritten(q[1..], v))
  }

  /** The user values that init does not keep. */
  predicate Overwritten(m: map<string, Json>, p: seq<string>, v: Json, configPath: string, build: Build) {
    p != [] &&
    if p[0] == "config_path" then |p| > 1 || v != Str(configPath)
    else if p[0] == "touch_calibrated" then
      |p| == 1 && v == Bool(false) && Child(m, "touch_calibration_coeff").Null? && build.evdevCalibrate
    else if p[0] == "invert_y_direction" then
      Child(m, "invert_y_ke_default_applied").Null? && (|p| > 1 || v != Bool(true))
    else if p[0] == "invert_z_direction" then
      Child(m, "invert_z_ke_default_applied").Null? && (|p| > 1 || v != Bool(true))
    else
      && p[0] == "printers" && Child(m, "default_printer").Str?
      && BelowPrinters(Child(m, "default_printer").s, p[1..], v)
  }

  /** The values below the printers, named from there, that the upgrade of one printer replaces. */
  predicate BelowPrinters(name: string, q: seq<string>, v: Json) {
    q == [] || (q[0] == name && (|q| == 1 || PrinterOverwritten(q[1..], v)))
  }

  lemma {:induction false} LookupChild(m: map<string, Json>, p: seq<string>)
    requires p != []
    ensures Lookup(Obj(m), p) == if p[0] in m then Lookup(m[p[0]], p[1..]) else None
  {
  }

  lemma LookupScalar(v: Json, p: seq<string>)
    requires !v.Obj?
    ensures Lookup(v, p) == if p == [] then Some(v) else None
  {
  }

  /** The macro names are the only values a macro object loses. */
  lemma MacrosKeep(v: Json, q: seq<string>, x: Json)
    requires Lookup(v, q) == Some(x) && Leaf(x)
    ensures Lookup(MigrateMacros(v), q) == Some(x) <==> q != [] && !MacroOverwritten(q, x)
  {
  }

  lemma PrinterValues(p: map<string, Json>, k: string)
    requires !Child(p, k).Null?
    ensures k in MigratePrinter(p)
    ensures MigratePrinter(p)[k] == if k == "monitored_sensors" && p[k] == Arr([]) then SensorsConf()
                                    else if k == "default_macros" then MigrateMacros(p[k]) else p[k]
  {
    hide MigrateMacros, SensorsConf, FansConf;
  }

  lemma PrinterKeeps(p: map<string, Json>, q: seq<string>, x: Json)
    requires q != [] && Lookup(Obj(p), q) == Some(x) && Leaf(x)
    ensures Lookup(Obj(MigratePrinter(p)), q) == Some(x) <==> !PrinterOverwritten(q, x)
  {
    hide MigratePrinter, MigrateMacros, MacroOverwritten;
    LookupChild(p, q);
    LookupChild(MigratePrinter(p), q);
    var was := p[q[0]];
    if !was.Obj? {
      LookupScalar(was, q[1..]);
    }
    PrinterValues(p, q[0]);
    assert q[1..] == [] ==> q == [q[0]];
    if q[0] == "default_macros" {
      MacrosKeep(was, q[1..], x);
    } else if q[0] == "monitored_sensors" && was == Arr([]) {
      LookupScalar(was, q[1..]);
      LookupScalar(SensorsConf(), q[1..]);
    }
  }

  /** A member that keeps its value keeps everything below it. */
  lemma SameMemberSameValues(m: map<string, Json>, r: map<string, Json>, p: seq<string>, x: Json)
    requires p != [] && Lookup(Obj(m), p) == Some(x) && Leaf(x) && Child(r, p[0]) == Child(m, p[0])
    ensures Lookup(Obj(r), p) == Some(x)
  {
  }

  /** A member replaced by a scalar keeps a value only if it is that scalar. */
  lemma ScalarMember(m: map<string, Json>, r: map<string, Json>, p: seq<string>, x: Json)
    requires p != [] && Lookup(Obj(m), p) == Some(x) && Leaf(x) && !Child(r, p[0]).Obj?
    ensures Lookup(Obj(r), p) == Some(x) <==> |p| == 1 && Child(r, p[0]) == x
  {
  }

  lemma TopMember(m: map<string, Json>, p: seq<string>, x: Json)
    requires p != [] && Lookup(Obj(m), p) == Some(x) && Leaf(x)
    ensures p[0] in m && !m[p[0]].Null?
    ensures !m[p[0]].Obj? ==> |p| == 1 && m[p[0]] == x
    ensures |p| == 1 ==> m[p[0]] == x
  {
  }

  /** Below the printers: only the default printer's own object changes. */
  lemma PrintersKeep(m: map<string, Json>, p: seq<string>, x: Json)
    requires MigratePrinters(m).Ok? && p != [] && p[0] == "printers" && Lookup(Obj(m), p) == Some(x) && Leaf(x)
    ensures Lookup(Obj(MigratePrinters(m).value), p) == Some(x)
            <==> !(Child(m, "default_printer").Str? && BelowPrinters(Child(m, "default_printer").s, p[1..], x))
  {
    hide MigratePrinter, PrinterOverwritten;
    var r := MigratePrinters(m).value;
    TopMember(m, p, x);
    LookupChild(m, p);
    LookupChild(r, p);
    if !Child(m, "default_printer").Str? {
      SameMemberSameValues(m, r, p, x);
    } else {
      var name := m["default_printer"].s;
      var ps := m["printers"].members;
      var inner := Inner(m, "printers", name).value;
      var qs := ps[name := Obj(MigratePrinter(inner))];
      assert r["printers"] == Obj(qs);
      var q := p[1..];
      if q == [] {
        assert name in qs;
      } else if q[0] == name {
        LookupChild(ps, q);
        LookupChild(qs, q);
        TopMember(ps, q, x);
        if |q| == 1 {
          PrinterIsFilled(inner);
        } else {
          PrinterKeeps(inner, q[1..], x);
        }
      } else {
        SameMemberSameValues(ps, qs, q, x);
      }
    }
  }

  lemma PrinterIsFilled(p: map<string, Json>)
    ensures MigratePrinter(p) != map[]
  {
    assert "default_macros" in MigratePrinter(p);
  }

  /** One member of the root before the global steps. */
  lemma BeforeGlobals(m: map<string, Json>, configPath: string, k: string)
    requires MigratePrinters(Started(m, configPath)).Ok?
    ensures var n := MigratePrinters(Started(m, configPath)).value;
            && (k == "config_path" ==> Child(n, k) == Str(configPath))
            && (k == "guppy_init_script" && Child(m, "default_printer").Str? ==>
                  Child(n, k) == OrElse(Child(m, k), Str("/etc/init.d/S99guppyscreen")))
            && (k == "guppy_init_script" && !Child(m, "default_printer").Str? ==> Child(n, k) == Child(m, k))
            && (k != "config_path" && k != "guppy_init_script" && k != "printers" ==> Child(n, k) == Child(m, k))
  {
    hide MigratePrinter, TouchAt;
  }

  /** What one member of the root, other than the printers, is after init. */
  function RootValue(m: map<string, Json>, configPath: string, build: Build, k: string): Json {
    if k == "config_path" then Str(configPath)
    else if k == "guppy_init_script" && Child(m, "default_printer").Str?
    then OrElse(Child(m, k), Str("/etc/init.d/S99guppyscreen"))
    else GlobalValue(m, build, k)
  }

  /** Every member of the root other than the printers ends with exactly the value in the table. */
  lemma MigrateFillsRoot(m: map<string, Json>, configPath: string, build: Build, k: string)
    requires Migrate(Obj(m), configPath, build).Ok? && k != "printers"
    ensures Migrate(Obj(m), configPath, build).value.Obj?
    ensures Child(Migrate(Obj(m), configPath, build).value.members, k) == RootValue(m, configPath, build, k)
  {
    hide MigratePrinters, MigrateGlobals, TouchAt;
    var n := MigratePrinters(Started(m, configPath)).value;
    GlobalMember(n, build, k);
    BeforeGlobals(m, configPath, k);
    BeforeGlobals(m, configPath, "touch_calibrated");
    BeforeGlobals(m, configPath, "touch_calibration_coeff");
    BeforeGlobals(m, configPath, "invert_y_ke_default_applied");
    BeforeGlobals(m, configPath, "invert_z_ke_default_applied");
  }

  /**
    Conservation: every value in the user's file, wherever it is, is still there after init
    unless it is one of the listed exceptions, and each exception really is replaced.
   */
  lemma MigrateKeepsUserValues(m: map<string, Json>, p: seq<string>, x: Json, configPath: string, build: Build)
    requires p != [] && Lookup(Obj(m), p) == Some(x) && Leaf(x) && Migrate(Obj(m), configPath, build).Ok?
    ensures Lookup(Migrate(Obj(m), configPath, build).value, p) == Some(x) <==> !Overwritten(m, p, x, configPath, build)
  {
    hide MigratePrinters, MigrateGlobals, TouchAt, PrinterOverwritten;
    var start := Started(m, configPath);
    var n := MigratePrinters(start).value;
    var r := MigrateGlobals(n, build);
    assert Migrate(Obj(m), configPath, build) == Ok(Obj(r));
    TopMember(m, p, x);
    var k := p[0];
    if k == "printers" {
      GlobalMember(n, build, k);
    } else {
      MigrateFillsRoot(m, configPath, build, k);
    }
    if k == "config_path" {
      assert Child(r, k) == Str(configPath);
      ScalarMember(m, r, p, x);
    } else if k == "printers" {
      SameMemberSameValues(m, start, p, x);
      PrintersKeep(start, p, x);
      assert Child(start, "default_printer") == Child(m, "default_printer");
      assert Child(r, k) == Child(n, k);
      LookupChild(r, p);
      LookupChild(n, p);
    } else if k == "touch_calibrated" {
      TouchValue(m, r, p, x, build);
    } else if k == "invert_y_direction" {
      InvertValue(m, r, p, x, "invert_y_ke_default_applied");
    } else if k == "invert_z_direction" {
      InvertValue(m, r, p, x, "invert_z_ke_default_applied");
    } else {
      assert Child(r, k) == Child(m, k);
      SameMemberSameValues(m, r, p, x);
    }
  }

  lemma InvertValue(m: map<string, Json>, r: map<string, Json>, p: seq<string>, x: Json, marker: string)
    requires p != [] && Lookup(Obj(m), p) == Some(x) && Leaf(x)
    requires Child(r, p[0]) == Forced(m, marker, p[0])
    ensures Lookup(Obj(r), p) == Some(x) <==> !(Child(m, marker).Null? && (|p| > 1 || x != Bool(true)))
  {
  }

  lemma TouchValue(m: map<string, Json>, r: map<string, Json>, p: seq<string>, x: Json, build: Build)
    requires p != [] && p[0] == "touch_calibrated" && Lookup(Obj(m), p) == Some(x) && Leaf(x)
    requires Child(r, p[0]) == GlobalValue(m, build, p[0])
    ensures Lookup(Obj(r), p) == Some(x)
            <==> !(|p| == 1 && x == Bool(false) && Child(m, "touch_calibration_coeff").Null? && build.evdevCalibrate)
  {
  }

  // ---- when init throws, and what it fills in ----

  predicate ObjectOrNull(j: Json) {
    j.Null? || j.Obj?
  }

  /** What init can work with: objects wherever it has to descend, a string as printer name. */
  predicate Accepted(d: Json) {
    && ObjectOrNull(d)
    && (d.Obj? ==>
          var printer := Child(d.members, "default_printer");
          || printer.Null?
          || (printer.Str?
              && var printers := Child(d.members, "printers");
                 && ObjectOrNull(printers)
                 && (printers.Obj? ==> ObjectOrNull(Child(printers.members, printer.s)))))
  }

  /** init gets through exactly on these trees; on all others it throws. */
  lemma MigrateThrowsExactly(d: Json, configPath: string, build: Build)
    ensures Migrate(d, configPath, build).Ok? <==> Accepted(d)
  {
    hide MigratePrinter, MigrateGlobals;
    if ObjectOrNull(d) {
      var m := MembersOf(d).value;
      var start := Started(m, configPath);
      assert Child(start, "default_printer") == Child(m, "default_printer");
      assert Child(start, "printers") == Child(m, "printers");
    }
  }

  /** What one member of the default printer is after init. */
  function PrinterValue(p: map<string, Json>, k: string): Json {
    var was := Child(p, k);
    if k == "monitored_sensors" then (if LacksSensors(was) then SensorsConf() else was)
    else if k == "fans" then OrElse(was, FansConf())
    else if k == "default_macros" then MigrateMacros(was)
    else if k == "log_level" then OrElse(was, Str("info"))
    else was
  }

  /** What one entry of the default printer's macros is after init. */
  function MacroValue(v: Json, k: string): Json {
    var was := if v.Obj? then Child(v.members, k) else Null;
    if k == "cooldown" && (!v.Obj? || k !in v.members) then
      Str("SET_HEATER_TEMPERATURE HEATER=extruder TARGET=0\n"
          + "SET_HEATER_TEMPERATURE HEATER=heater_bed TARGET=0")
    else if k == "load_filament" && (v.Null? || was == Str("LOAD_MATERIAL")) then Str("_GUPPY_LOAD_MATERIAL")
    else if k == "unload_filament" && (v.Null? || was == Str("UNLOAD_MATERIAL")) then Str("_GUPPY_QUIT_MATERIAL")
    else was
  }

  lemma MigrateFillsMacros(v: Json, k: string)
    ensures MigrateMacros(v).Obj? && Child(MigrateMacros(v).members, k) == MacroValue(v, k)
  {
  }

  lemma MigrateFillsMember(p: map<string, Json>, k: string)
    ensures Child(MigratePrinter(p), k) == PrinterValue(p, k)
  {
    hide MigrateMacros, SensorsConf, FansConf;
  }

  /**
    Below the printers: every member of the default printer, created if need be, ends with the
    value in the tables, every other printer is left alone, and so are all of them when no
    default printer is named.
   */
  lemma MigrateFillsPrinter(m: map<string, Json>, configPath: string, build: Build, k: string, other: string)
    requires Migrate(Obj(m), configPath, build).Ok?
    ensures Migrate(Obj(m), configPath, build).value.Obj?
    ensures var r, chosen := Migrate(Obj(m), configPath, build).value.members, Child(m, "default_printer");
            if chosen.Null? then Child(r, "printers") == Child(m, "printers")
            else
              && chosen.Str? && Inner(m, "printers", chosen.s).Ok? && Inner(r, "printers", chosen.s).Ok?
              && Child(Inner(r, "printers", chosen.s).value, k) == PrinterValue(Inner(m, "printers", chosen.s).value, k)
              && (other != chosen.s ==> Inner(r, "printers", other) == Inner(m, "printers", other))
  {
    hide MigratePrinters, MigrateGlobals, PrinterValue, Started, Inner;
    var start, chosen := Started(m, configPath), Child(m, "default_printer");
    assert Child(start, "default_printer") == chosen && Child(start, "printers") == Child(m, "printers") by {
      StartedMembers(m, configPath);
    }
    var n := MigratePrinters(start).value;
    var r := MigrateGlobals(n, build);
    assert Migrate(Obj(m), configPath, build) == Ok(Obj(r));
    GlobalMember(n, build, "printers");
    OnlyDefaultPrinterChanges(start, other);
    if chosen.Str? {
      SameInner(start, m, chosen.s);
      SameInner(start, m, other);
      SameInner(n, r, chosen.s);
      SameInner(n, r, other);
      MigrateFillsMember(Inner(m, "printers", chosen.s).value, k);
    }
  }

  lemma StartedMembers(m: map<string, Json>, configPath: string)
    ensures var start := Started(m, configPath);
            && Child(start, "default_printer") == Child(m, "default_printer")
            && Child(start, "printers") == Child(m, "printers")
  {
  }

  lemma SameInner(m: map<string, Json>, n: map<string, Json>, name: string)
    requires Child(m, "printers") == Child(n, "printers")
    ensures Inner(m, "printers", name) == Inner(n, "printers", name)
  {
  }

  lemma OnlyDefaultPrinterChanges(m: map<string, Json>, other: string)
    requires MigratePrinters(m).Ok?
    ensures var n, chosen := MigratePrinters(m).value, Child(m, "default_printer");
            if chosen.Null? then Child(n, "printers") == Child(m, "printers")
            else
              && chosen.Str? && Inner(m, "printers", chosen.s).Ok?
              && Inner(n, "printers", chosen.s) == Ok(MigratePrinter(Inner(m, "printers", chosen.s).value))
              && (other != chosen.s ==> Inner(n, "printers", other) == Inner(m, "printers", other))
  {
    hide MigratePrinter;
  }
}

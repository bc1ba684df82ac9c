/** The configuration object: init upgrades its tree in place and writes it back. */
module ConfigFile {
  import opened Options
  import opened JsonTrees
  import opened ConfigMigration

  /**
    A printer name that makes a single, non-numeric pointer token. Other names would be split,
    unescaped or taken as array positions by the JSON library.
   */
  predicate PlainName(name: string) {
    && name != "" && name != "-"
    && (forall i :: 0 <= i < |name| ==> name[i] != '/' && name[i] != '~')
    && (exists i :: 0 <= i < |name| && !('0' <= name[i] <= '9'))
  }

  /** The name of the default printer, if there is one. */
  function PrinterName(d: Json): Option<string> {
    if d.Obj? && Child(d.members, "default_printer").Str? then Some(Child(d.members, "default_printer").s) else None
  }

  predicate PlainPrinter(d: Json) {
    d.Obj? && Child(d.members, "default_printer").Str? ==> PlainName(d.members["default_printer"].s)
  }

  class Config {
    var path: string
    var data: Json
    var defaultPrinter: string
    /** The contents of the configuration file, if there is one. */
    var file: Option<Json>

    constructor (file: Option<Json>)
      ensures this.file == file && data == Null
    {
      path, data, defaultPrinter := "", Null, "";
      this.file := file;
    }

    /** data[pointer] as an rvalue: creates what is missing; ok is false where C++ throws. */
    method Refer(tokens: seq<string>) returns (ok: bool, v: Json)
      modifies `data
      ensures ok <==> Touch(old(data), tokens).Ok?
      ensures ok ==> Ok(data) == Touch(old(data), tokens) && Ok(v) == Get(old(data), tokens)
      ensures !ok ==> data == old(data)
    {
      var g := Get(data, tokens);
      if g.Thrown? {
        return false, Null;
      }
      PutThenGet(data, tokens, g.value);
      data := Put(data, tokens, g.value).value;
      return true, g.value;
    }

    /** data[pointer] = v. */
    method Assign(tokens: seq<string>, v: Json) returns (ok: bool)
      modifies `data
      ensures ok <==> Put(old(data), tokens, v).Ok?
      ensures ok ==> Ok(data) == Put(old(data), tokens, v)
      ensures !ok ==> data == old(data)
    {
      var p := Put(data, tokens, v);
      if p.Thrown? {
        return false;
      }
      data := p.value;
      return true;
    }

    /** A root member that is filled in when it is missing or null. */
    method FillRoot(key: string, v: Json)
      requires data.Obj?
      modifies `data
      ensures data == Obj(DefaultAt(old(data.members), key, v))
    {
      hide Get, Put;
      ghost var m := data.members;
      TouchRoot(m, key);
      PutRoot(m, key, Child(m, key));
      var ok, now := Refer([key]);
      if now.Null? {
        PutRoot(m[key := Child(m, key)], key, v);
        ok := Assign([key], v);
        assert m[key := Child(m, key)][key := v] == m[key := v];
      } else {
        UpdateWithSame(m, key);
      }
    }

    method ReferInner(name: string, key: string) returns (v: Json)
      requires data.Obj? && Inner(data.members, "printers", name).Ok?
      modifies `data
      ensures var p := Inner(old(data.members), "printers", name).value;
              && v == Child(p, key)
              && data == Obj(WithInner(old(data.members), "printers", name, p[key := Child(p, key)]))
              && Inner(data.members, "printers", name) == Ok(p[key := Child(p, key)])
    {
      hide Get, Put, WithInner;
      ghost var m := data.members;
      ghost var p := Inner(m, "printers", name).value;
      TouchInner(m, "printers", name, key);
      PutInner(m, "printers", name, key, Null);
      InnerOfWith(m, "printers", name, p[key := Child(p, key)], p);
      var ok;
      ok, v := Refer(["printers", name, key]);
    }

    method AssignInner(name: string, key: string, v: Json)
      requires data.Obj? && Inner(data.members, "printers", name).Ok?
      modifies `data
      ensures var p := Inner(old(data.members), "printers", name).value;
              && data == Obj(WithInner(old(data.members), "printers", name, p[key := v]))
              && Inner(data.members, "printers", name) == Ok(p[key := v])
    {
      hide Get, Put, WithInner;
      ghost var m := data.members;
      ghost var p := Inner(m, "printers", name).value;
      PutInner(m, "printers", name, key, v);
      InnerOfWith(m, "printers", name, p[key := v], p);
      var ok := Assign(["printers", name, key], v);
    }

    /** A member of the printer's object that is filled in when it is missing or null. */
    method FillInner(name: string, key: string, v: Json)
      requires data.Obj? && Inner(data.members, "printers", name).Ok?
      modifies `data
      ensures var p := Inner(old(data.members), "printers", name).value;
              && data == Obj(WithInner(old(data.members), "printers", name, DefaultAt(p, key, v)))
              && Inner(data.members, "printers", name) == Ok(DefaultAt(p, key, v))
    {
      hide WithInner, Inner;
      ghost var m := data.members;
      ghost var p := Inner(m, "printers", name).value;
      var now := ReferInner(name, key);
      if now.Null? {
        AssignInner(name, key, v);
        InnerOfWith(m, "printers", name, p[key := Null], p[key := Null][key := v]);
        assert p[key := Null][key := v] == p[key := v];
      } else {
        UpdateWithSame(p, key);
      }
    }

    /** monitored_sensors: an empty array counts as missing. */
    method FillSensors(name: string)
      requires data.Obj? && Inner(data.members, "printers", name).Ok?
      modifies `data
      ensures var p := Inner(old(data.members), "printers", name).value;
              var q :=
                if LacksSensors(Child(p, "monitored_sensors")) then p["monitored_sensors" := SensorsConf()] else p;
              && data == Obj(WithInner(old(data.members), "printers", name, q))
              && Inner(data.members, "printers", name) == Ok(q)
    {
      hide WithInner, Inner, SensorsConf;
      ghost var m := data.members;
      ghost var p := Inner(m, "printers", name).value;
      var now := ReferInner(name, "monitored_sensors");
      if now.Null? || (now.Arr? && now.items == []) {
        AssignInner(name, "monitored_sensors", SensorsConf());
        ghost var t := p["monitored_sensors" := now];
        InnerOfWith(m, "printers", name, t, t["monitored_sensors" := SensorsConf()]);
        assert t["monitored_sensors" := SensorsConf()] == p["monitored_sensors" := SensorsConf()];
      } else {
        UpdateWithSame(p, "monitored_sensors");
      }
    }

    /** default_macros: defaults, the cooldown macro, and the two dead names. */
    method FixMacros(name: string)
      requires data.Obj? && Inner(data.members, "printers", name).Ok?
      modifies `data
      ensures var p := Inner(old(data.members), "printers", name).value;
              var q := p["default_macros" := MigrateMacros(Child(p, "default_macros"))];
              && data == Obj(WithInner(old(data.members), "printers", name, q))
              && Inner(data.members, "printers", name) == Ok(q)
    {
      hide WithInner, Inner;
      ghost var m := data.members;
      ghost var p := Inner(m, "printers", name).value;
      var now := ReferInner(name, "default_macros");
      ghost var t := p["default_macros" := now];
      var macros := UpgradedMacros(now);
      AssignInner(name, "default_macros", macros);
      InnerOfWith(m, "printers", name, t, t["default_macros" := macros]);
      assert t["default_macros" := macros] == p["default_macros" := macros];
    }

    /** The upgrade of the macro object itself, one edit after the other. */
    method UpgradedMacros(now: Json) returns (macros: Json)
      ensures macros == MigrateMacros(now)
    {
      if now.Null? {
        macros := Obj(MacrosConf()["cooldown" := COOLDOWN]);
      } else {
        macros := now;
        if !(macros.Obj? && "cooldown" in macros.members) {
          var target := if macros.Obj? then macros.members else map[];  // merge_patch replaces a non-object
          macros := Obj(target["cooldown" := COOLDOWN]);
        }
        if "load_filament" in macros.members && macros.members["load_filament"] == DEAD_LOAD {
          macros := Obj(macros.members["load_filament" := LOAD]);
        }
        if "unload_filament" in macros.members && macros.members["unload_filament"] == DEAD_UNLOAD {
          macros := Obj(macros.members["unload_filament" := UNLOAD]);
        }
      }
    }

    /** Everything below and beside the default printer. */
    method UpgradePrinter(name: string) returns (ok: bool)
      requires data.Obj? && Child(data.members, "default_printer") == Str(name)
      modifies `data
      ensures ok <==> MigratePrinters(old(data.members)).Ok?
      ensures ok ==> data.Obj? && Ok(data.members) == MigratePrinters(old(data.members))
    {
      hide WithInner, Inner, SensorsConf, FansConf, MigrateMacros, Get, Put, DefaultAt;
      ghost var m := data.members;
      TouchInner(m, "printers", name, "monitored_sensors");
      ok := Reachable(name);
      if !ok {
        return;
      }
      ghost var p := Inner(m, "printers", name).value;
      FillSensors(name);
      ghost var p1 := Inner(data.members, "printers", name).value;
      FillInner(name, "fans", FansConf());
      ghost var p2 := Inner(data.members, "printers", name).value;
      InnerOfWith(m, "printers", name, p1, p2);
      FixMacros(name);
      ghost var p3 := Inner(data.members, "printers", name).value;
      InnerOfWith(m, "printers", name, p2, p3);
      ghost var m3 := data.members;
      FillRoot("guppy_init_script", Str("/etc/init.d/S99guppyscreen"));
      OtherRootMember(m3, name, "guppy_init_script", Str("/etc/init.d/S99guppyscreen"),
                      DefaultAt(p3, "log_level", Str("info")));
      FillInner(name, "log_level", Str("info"));
      InnerOfWith(m, "printers", name, p3, DefaultAt(p3, "log_level", Str("info")));
    }

    /** The first reference below the printer is the one that can throw. */
    method Reachable(name: string) returns (ok: bool)
      requires data.Obj?
      ensures ok <==> Inner(data.members, "printers", name).Ok?
    {
      PutInner(data.members, "printers", name, "monitored_sensors", Null);
      var g := Get(data, ["printers", name, "monitored_sensors"]);
      ok := g.Ok?;
    }

    /** touch_calibrated: a false without coefficients counts as never set. */
    method UpgradeTouch(build: Build)
      requires data.Obj?
      modifies `data
      ensures data == Obj(MigrateTouch(old(data.members), build))
    {
      hide Get, Put;
      ghost var m := data.members;
      TouchRoot(m, "touch_calibrated");
      PutRoot(m, "touch_calibrated", Null);
      var ok, calibrated := Refer(["touch_calibrated"]);
      TouchRoot(data.members, "touch_calibration_coeff");
      PutRoot(data.members, "touch_calibration_coeff", Null);
      var coeff;
      ok, coeff := Refer(["touch_calibration_coeff"]);
      var never := calibrated.Null? || (calibrated.Bool? && !calibrated.b && coeff.Null?);
      if never {
        PutRoot(data.members, "touch_calibrated", Bool(build.evdevCalibrate));
        ok := Assign(["touch_calibrated"], Bool(build.evdevCalibrate));
      }
    }

    /** A setting forced on the first run that does not find its marker. */
    method ForceSetting(marker: string, setting: string)
      requires data.Obj? && marker != setting
      modifies `data
      ensures data == Obj(ForceOnce(old(data.members), marker, setting))
    {
      hide Get, Put;
      ghost var m := data.members;
      TouchRoot(m, marker);
      PutRoot(m, marker, Null);
      var ok, applied := Refer([marker]);
      if applied.Null? {
        PutRoot(data.members, setting, Bool(true));
        ok := Assign([setting], Bool(true));
        PutRoot(data.members, marker, Bool(true));
        ok := Assign([marker], Bool(true));
        assert m[marker := Null][setting := Bool(true)][marker := Bool(true)]
               == m[setting := Bool(true)][marker := Bool(true)];
      } else {
        UpdateWithSame(m, marker);
      }
    }

    /**
      Config::init. When nothing throws, the tree is the migration of what the file held (or of
      the first configuration), and the file holds it too; otherwise the file is not written.
     */
    method Init(configPath: string, thumbdir: string, build: Build) returns (ok: bool)
      requires file.Some? ==> PlainPrinter(file.value)
      modifies this
      ensures var start := if old(file).Some? then old(file).value else FirstConfig(thumbdir, build);
              && (ok <==> Migrate(start, configPath, build).Ok?)
              && (ok ==> Ok(data) == Migrate(start, configPath, build) && file == Some(data))
              && (ok && PrinterName(start).Some? ==> defaultPrinter == "/printers/" + PrinterName(start).value + "/")
      ensures !ok ==> file == old(file)
      ensures path == configPath
    {
      hide Get, Put, MigratePrinters, MigrateGlobals, FirstConfig;
      path := configPath;
      data := if file.Some? then file.value else FirstConfig(thumbdir, build);
      PutTopLevel(data, "config_path", Str(configPath));
      ok := Assign(["config_path"], Str(configPath));
      if !ok {
        return;
      }
      ok := UpgradePrinters();
      if !ok {
        return;
      }
      UpgradeGlobals(build);
      file := Some(data);
    }

    method UpgradePrinters() returns (ok: bool)
      requires data.Obj?
      modifies `data, `defaultPrinter
      ensures var m := TouchAt(old(data.members), "default_printer");
              && (ok <==> MigratePrinters(m).Ok?)
              && (ok ==> data.Obj? && Ok(data.members) == MigratePrinters(m))
              && (ok && Child(m, "default_printer").Str? ==>
                    defaultPrinter == "/printers/" + Child(m, "default_printer").s + "/")
    {
      hide Get, Put, WithInner, Inner, MigratePrinter;
      TouchRoot(data.members, "default_printer");
      PutRoot(data.members, "default_printer", Null);
      var dfName;
      ok, dfName := Refer(["default_printer"]);
      if !dfName.Null? {
        if !dfName.Str? {
          return false;
        }
        defaultPrinter := "/printers/" + dfName.s + "/";
        ok := UpgradePrinter(dfName.s);
      }
    }

    method UpgradeGlobals(build: Build)
      requires data.Obj?
      modifies `data
      ensures data == Obj(MigrateGlobals(old(data.members), build))
    {
      hide DefaultAt, MigrateTouch, ForceOnce;
      FillRoot("display_rotate", Number(if build.rotate then 3.0 else 0.0));
      UpgradeTouch(build);
      FillRoot("prompt_emergency_stop", Bool(true));
      FillRoot("display_sleep_sec", Number(600.0));
      FillRoot("default_extruder_temp", Number(240.0));
      ForceSetting("invert_y_ke_default_applied", "invert_y_direction");
      ForceSetting("invert_z_ke_default_applied", "invert_z_direction");
    }
  }

  /** Filling another root member and changing a printer's object commute. */
  lemma OtherRootMember(m: map<string, Json>, name: string, key: string, v: Json, q: map<string, Json>)
    requires key != "printers" && Inner(m, "printers", name).Ok?
    ensures Inner(DefaultAt(m, key, v), "printers", name) == Inner(m, "printers", name)
    ensures WithInner(DefaultAt(m, key, v), "printers", name, q) == DefaultAt(WithInner(m, "printers", name, q), key, v)
  {
  }

  lemma PutTopLevel(d: Json, key: string, v: Json)
    ensures Put(d, [key], v) == (match MembersOf(d) case Thrown => Thrown case Ok(m) => Ok(Obj(m[key := v])))
  {
  }
}

/** The console's built-in category table, in order of priority. */
module CategoryTable {
  import opened Keywords
  import opened Browser

  const CAT_DEFS: seq<CatDef> := [
    CatDef("Bed Mesh / Leveling", "MESH|Z_TILT|QUAD_GANTRY|SCREWS_TILT|BED_SCREWS|BED_TILT|LEVEL"),
    CatDef("Probe / Calibration",
           "PROBE|CALIBRATE|PID|SHAPER|RESONANCE|ACCELEROMETER|PRESSURE_ADVANCE|Z_OFFSET|GCODE_OFFSET|ENDSTOP_PHASE"),
    CatDef("Motion", "G28|HOME|MOVE|KINEMATIC|VELOCITY|M204|M205|STEPPER_BUZZ|M84|M18"),
    CatDef("Temperature / Fans", "TEMP|HEATER|M104|M109|M140|M190|M106|M107|FAN"),
    CatDef("Extruder / Filament", "EXTRUD|FILAMENT|M600|LOAD|UNLOAD|RETRACT|M83|M82"),
    CatDef("TMC / Drivers", "TMC"),
    CatDef("Print Job", "PRINT|SDCARD|PAUSE|RESUME|CANCEL|EXCLUDE_OBJECT|M24|M25|M73"),
    CatDef("Camera", "CAM"),
    CatDef("Query / Debug", "QUERY|GET_POSITION|M114|DUMP|DEBUG|RESPOND|M118|STATUS|HELP"),
    CatDef("System",
           "RESTART|SAVE_CONFIG|SAVE_VARIABLE|SAVE_GCODE|SHUTDOWN|REBOOT|M112|IDLE_TIMEOUT|SET_PIN|"
           + "DISPLAY|M115|BEEP|UPDATE")]

  /** The browser as the console panel builds it. */
  method NewBrowser() returns (b: CommandBrowser)
    ensures fresh(b) && b.Valid() && b.catDefs == CAT_DEFS
  {
    b := new CommandBrowser(CAT_DEFS);
  }
}

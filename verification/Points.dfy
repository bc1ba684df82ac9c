/** A point of a screen or of a touch panel, in whole pixels or raw units (lv_point_t). */
module Points {
  datatype Point = Point(x: int, y: int)
}

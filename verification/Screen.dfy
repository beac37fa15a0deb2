module Screen {
  const FB_W: nat := 600
  const FB_H: nat := 800
}
